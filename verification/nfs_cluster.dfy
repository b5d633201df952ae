/** The API server as one shared state: the object store, the single custom resource,
    the calls that may fail, and what other clients may do between two calls. */
module NfsCluster {
  import opened Prelude
  import opened NfsTypes

  /** `clock` is the last resource version handed out. */
  datatype World = World(store: map<Key, Object>, cr: Option<Nfs>, clock: nat)

  /** What may go wrong with one call. A read error is any Get error other than NotFound; a lost
      write takes effect although the client sees an error. Each strikes only calls of its sort. */
  datatype Fault = Fine | ReadError | WriteRefused | WriteLost

  datatype Reply = Ok | NotFound | Failure

  function Read(w: World, k: Key, f: Fault): Reply {
    if f.ReadError? then Failure else if k in w.store then Ok else NotFound
  }

  function ReadCr(w: World, f: Fault): (reply: Reply)
    ensures reply.Ok? ==> w.cr.Some?
  {
    if f.ReadError? then Failure else if w.cr.Some? then Ok else NotFound
  }

  function Answer(f: Fault): Reply {
    if f.WriteLost? then Failure else Ok
  }

  /** Create fails when the key is taken. */
  function Create(w: World, o: Object, f: Fault): (World, Reply) {
    if f.WriteRefused? || StoredAt(o) in w.store then (w, Failure)
    else (w.(store := w.store[StoredAt(o) := o]), Answer(f))
  }

  function Delete(w: World, k: Key, f: Fault): (World, Reply) {
    if f.WriteRefused? || k !in w.store then (w, Failure)
    else (w.(store := w.store - {k}), Answer(f))
  }

  predicate Current(w: World, m: Nfs) {
    w.cr.Some? && w.cr.value.rv == m.rv
  }

  /** A marked resource disappears with its last finalizer. */
  function Settle(w: World, m: Nfs): World {
    World(w.store, if m.marked && m.finalizers == [] then None else Some(m.(rv := w.clock + 1)), w.clock + 1)
  }

  /** Update writes everything except the status and the deletion mark, and only over the version `m` was read at. */
  function UpdateCr(w: World, m: Nfs, f: Fault): (World, Reply) {
    if f.WriteRefused? || !Current(w, m) then (w, Failure)
    else (Settle(w, m.(status := w.cr.value.status, marked := w.cr.value.marked)), Answer(f))
  }

  function UpdateStatus(w: World, m: Nfs, f: Fault): (World, Reply) {
    if f.WriteRefused? || !Current(w, m) then (w, Failure)
    else (Settle(w, w.cr.value.(status := m.status)), Answer(f))
  }

  // ---------------------------------------------------------------- the environment

  datatype Action =
    | EditSpec(spec: Spec)
    | MarkDeleted
    | AddFinalizer(name: string)
    | DropFinalizer(name: string)
    | CreateCr(m: Nfs)
    | PutObject(key: Key, object: Object)
    | RemoveObject(key: Key)

  function Apply(w: World, a: Action): World {
    match a
    case PutObject(k, o) => w.(store := w.store[k := o])
    case RemoveObject(k) => w.(store := w.store - {k})
    case CreateCr(m) => if w.cr.Some? then w else Settle(w, m.(marked := false))
    case _ =>
      if w.cr.None? then w else
      var m := w.cr.value;
      match a
      case EditSpec(spec) => Settle(w, m.(desired := m.desired.(spec := spec)))
      case MarkDeleted => Settle(w, m.(marked := true))
      case AddFinalizer(x) => if m.marked || x in m.finalizers then w else Settle(w, m.(finalizers := m.finalizers + [x]))
      case DropFinalizer(x) => Settle(w, m.(finalizers := Without(m.finalizers, x)))
      case _ => w
  }

  function ApplyAll(w: World, actions: seq<Action>): World
    decreases |actions|
  {
    if actions == [] then w else ApplyAll(Apply(w, actions[0]), actions[1..])
  }

  /** One API call of the controller: what others do just before it, and what goes wrong with it. */
  datatype Tick = Tick(env: seq<Action>, fault: Fault)

  function Head(ticks: seq<Tick>): Tick {
    if ticks == [] then Tick([], Fine) else ticks[0]
  }

  function Tail(ticks: seq<Tick>): seq<Tick> {
    if ticks == [] then [] else ticks[1..]
  }
}
