/** The shell functions `urlencode` and `urldecode`: percent-encoding as in section 2.1 of RFC 3986, over the unreserved
    characters of its section 2.3. Strings are single-byte characters. */
module UrlCode {
  import opened Prelude

  /** What a shell variable can hold: any byte but NUL. */
  predicate ShellString(s: string) {
    forall i :: 0 <= i < |s| ==> 1 <= s[i] as int <= 255
  }

  // ---------------------------------------------------------------- encoding

  /** The bracket pattern of the `case`, with ranges in the C collation order. */
  predicate Unreserved(c: char) {
    'a' <= c <= 'z' || 'A' <= c <= 'Z' || '0' <= c <= '9' || c == '.' || c == '~' || c == '_' || c == '-'
  }

  function UpperHex(n: nat): char
    requires n < 16
  {
    if n < 10 then ('0' as int + n) as char else ('A' as int + n - 10) as char
  }

  function EncodeChar(c: char): string
    requires c as int <= 255
  {
    if Unreserved(c) then [c] else ['%', UpperHex(c as int / 16), UpperHex(c as int % 16)]
  }

  function Encode(s: string): string
    requires ShellString(s)
  {
    if s == [] then [] else EncodeChar(s[0]) + Encode(s[1..])
  }

  lemma {:induction false} EncodeSnoc(s: string, c: char)
    requires ShellString(s) && 1 <= c as int <= 255
    ensures Encode(s + [c]) == Encode(s) + EncodeChar(c)
  {
    if s == [] {
      assert [c][1..] == [];
      assert s + [c] == [c];
    } else {
      assert (s + [c])[1..] == s[1..] + [c];
      EncodeSnoc(s[1..], c);
    }
  }

  // ---------------------------------------------------------------- decoding

  /** `${1//+/ }` */
  function PlusToSpace(s: string): (r: string)
    ensures |r| == |s|
    ensures forall i :: 0 <= i < |s| ==> r[i] == if s[i] == '+' then ' ' else s[i]
  {
    if s == [] then [] else [if s[0] == '+' then ' ' else s[0]] + PlusToSpace(s[1..])
  }

  /** `${url_encoded//%/\\x}` */
  function PercentToEscape(s: string): string {
    if s == [] then [] else (if s[0] == '%' then ['\\', 'x'] else [s[0]]) + PercentToEscape(s[1..])
  }

  predicate HexDigit(c: char) {
    '0' <= c <= '9' || 'a' <= c <= 'f' || 'A' <= c <= 'F'
  }

  function HexValue(c: char): (n: nat)
    requires HexDigit(c)
    ensures n < 16
  {
    if c <= '9' then c as int - '0' as int else if c <= 'F' then c as int - 'A' as int + 10 else c as int - 'a' as int + 10
  }

  predicate OctalDigit(c: char) {
    '0' <= c <= '7'
  }

  /** How many of the first `max` characters are digits in the sense of `digit`. */
  function DigitRun(s: string, digit: char -> bool, max: nat): (n: nat)
    ensures n <= max && n <= |s|
    ensures forall i :: 0 <= i < n ==> digit(s[i])
    decreases max
  {
    if max == 0 || s == [] || !digit(s[0]) then 0 else 1 + DigitRun(s[1..], digit, max - 1)
  }

  function OctalNumber(s: string): nat
    requires forall i :: 0 <= i < |s| ==> OctalDigit(s[i])
  {
    if s == [] then 0
    else
      assert OctalDigit(s[|s| - 1]);
      8 * OctalNumber(s[..|s| - 1]) + (s[|s| - 1] as int - '0' as int)
  }

  function ControlChar(c: char): Option<char> {
    match c
    case 'a' => Some(7 as char)
    case 'b' => Some(8 as char)
    case 'e' => Some(27 as char)
    case 'E' => Some(27 as char)
    case 'f' => Some(12 as char)
    case 'n' => Some(10 as char)
    case 'r' => Some(13 as char)
    case 't' => Some(9 as char)
    case 'v' => Some(11 as char)
    case '\\' => Some('\\')
    case _ => None
  }

  /** `printf '%b'`: at most two digits after `\x`, at most three in an octal escape (four with a leading zero), `\c` ends
      the output, anything else keeps its backslash. */
  function Escapes(s: string): string
    decreases |s|
  {
    if s == [] then []
    else if s[0] != '\\' || |s| == 1 then [s[0]] + Escapes(s[1..])
    else if s[1] == 'x' then
      var n := DigitRun(s[2..], HexDigit, 2);
      if n == 0 then ['\\'] + Escapes(s[1..])
      else if n == 1 then [HexValue(s[2]) as char] + Escapes(s[3..])
      else
        assert HexDigit(s[2..][0]) && HexDigit(s[2..][1]);
        [(16 * HexValue(s[2]) + HexValue(s[3])) as char] + Escapes(s[4..])
    else if OctalDigit(s[1]) then
      var n := DigitRun(s[1..], OctalDigit, if s[1] == '0' then 4 else 3);
      [(OctalNumber(s[1..][..n]) % 256) as char] + Escapes(s[1..][n..])
    else if s[1] == 'c' then []
    else if ControlChar(s[1]).Some? then [ControlChar(s[1]).value] + Escapes(s[2..])
    else ['\\'] + Escapes(s[1..])
  }

  function Decode(s: string): string {
    Escapes(PercentToEscape(PlusToSpace(s)))
  }

  // ---------------------------------------------------------------- the reference decoder

  /** Section 2.1 of RFC 3986: a percent sign and two hexadecimal digits stand for one octet, all else for itself. */
  predicate WellFormed(s: string) {
    if s == [] then true
    else if s[0] == '%' then |s| >= 3 && HexDigit(s[1]) && HexDigit(s[2]) && WellFormed(s[3..])
    else WellFormed(s[1..])
  }

  function PercentDecode(s: string): string
    requires WellFormed(s)
    decreases |s|
  {
    if s == [] then []
    else if s[0] == '%' then [(16 * HexValue(s[1]) + HexValue(s[2])) as char] + PercentDecode(s[3..])
    else [s[0]] + PercentDecode(s[1..])
  }

  // ---------------------------------------------------------------- backslashes in the input

  /** The backslash at the head of `s` starts an escape of the text that reaches `printf`. */
  predicate StartsEscape(s: string) {
    |s| >= 2 && s[0] == '\\' &&
    (s[1] == '%' || s[1] == 'c' || OctalDigit(s[1]) || ControlChar(s[1]).Some? ||
     (s[1] == 'x' && |s| >= 3 && HexDigit(s[2])))
  }

  predicate Inert(s: string) {
    forall i :: 0 <= i < |s| ==> !StartsEscape(s[i..])
  }

  lemma InertStep(s: string, n: nat)
    requires n <= |s| && forall i :: 0 <= i < n ==> !StartsEscape(s[i..])
    ensures Inert(s) <==> Inert(s[n..])
  {
    forall i | 0 <= i < |s| - n ensures s[n..][i..] == s[n + i..] {}
    if Inert(s[n..]) {
      forall i | n <= i < |s| ensures !StartsEscape(s[i..]) {
        assert s[n..][i - n..] == s[i..];
      }
    }
  }

  lemma {:induction false} PercentFree(a: string, b: string)
    requires '%' !in a
    ensures PercentToEscape(a + b) == a + PercentToEscape(b)
  {
    if a == [] {
      assert a + b == b;
    } else {
      assert (a + b)[1..] == a[1..] + b;
      PercentFree(a[1..], b);
    }
  }

  /** The rewrite does not change how far a run of digits goes: a percent sign ends it, and so does what replaces it. */
  lemma {:induction false} SameRun(s: string, digit: char -> bool, max: nat)
    requires !digit('%') && !digit('\\')
    ensures DigitRun(PercentToEscape(s), digit, max) == DigitRun(s, digit, max)
    decreases max
  {
    if max > 0 && s != [] && digit(s[0]) {
      assert PercentToEscape(s)[1..] == PercentToEscape(s[1..]);
      SameRun(s[1..], digit, max - 1);
    }
  }

  lemma RunIsPercentFree(s: string, digit: char -> bool, max: nat)
    requires !digit('%')
    ensures '%' !in s[..DigitRun(s, digit, max)]
  {
  }

  /** What does not start with a percent sign or an escape is printed as it is. */
  lemma PlainStep(s: string)
    requires s != [] && s[0] != '%' && !StartsEscape(s)
    ensures Escapes(PercentToEscape(s)) == [s[0]] + Escapes(PercentToEscape(s[1..]))
  {
    var t := PercentToEscape(s);
    assert t[1..] == PercentToEscape(s[1..]);
    if s[0] == '\\' && |s| >= 2 && s[1] == 'x' {
      assert PercentToEscape(s[1..])[1..] == PercentToEscape(s[1..][1..]);
      assert t[2..] == PercentToEscape(s[2..]);
    }
  }

  lemma HexEscape(a: char, b: char, rest: string)
    requires HexDigit(a) && HexDigit(b)
    ensures Escapes(['\\', 'x', a, b] + rest) == [(16 * HexValue(a) + HexValue(b)) as char] + Escapes(rest)
  {
    var t := ['\\', 'x', a, b] + rest;
    assert t[4..] == rest && t[2..] == [a, b] + rest;
    HexRunOfTwo(t[2..]);
  }

  lemma TripletStep(s: string)
    requires |s| >= 3 && s[0] == '%' && HexDigit(s[1]) && HexDigit(s[2])
    ensures Escapes(PercentToEscape(s)) ==
            [(16 * HexValue(s[1]) + HexValue(s[2])) as char] + Escapes(PercentToEscape(s[3..]))
  {
    TripletText(s);
    HexEscape(s[1], s[2], PercentToEscape(s[3..]));
  }

  lemma TripletText(s: string)
    requires |s| >= 3 && s[0] == '%' && HexDigit(s[1]) && HexDigit(s[2])
    ensures PercentToEscape(s) == ['\\', 'x', s[1], s[2]] + PercentToEscape(s[3..])
  {
    assert s[1..] == [s[1], s[2]] + s[3..];
    PercentFree([s[1], s[2]], s[3..]);
  }

  lemma SpoiltEscape(a: char, b: char, rest: string)
    requires a != '\\' && b != '\\'
    ensures Escapes(['\\', '\\', 'x', a, b] + rest) == ['\\', 'x', a, b] + Escapes(rest)
  {
    Unescaped(['x', a, b], rest);
    assert (['\\', '\\', 'x', a, b] + rest)[2..] == ['x', a, b] + rest;
  }

  /** A backslash before a triplet takes the backslash the rewrite puts there: the triplet is not decoded. */
  lemma SpoiltTriplet(s: string)
    requires |s| >= 4 && s[0] == '\\' && s[1] == '%' && HexDigit(s[2]) && HexDigit(s[3])
    ensures Escapes(PercentToEscape(s)) == ['\\', 'x', s[2], s[3]] + Escapes(PercentToEscape(s[4..]))
  {
    var u, rest := s[1..], PercentToEscape(s[4..]);
    assert s == ['\\'] + u && u[3..] == s[4..];
    PercentFree(['\\'], u);
    TripletText(u);
    assert ['\\'] + (['\\', 'x', s[2], s[3]] + rest) == ['\\', '\\', 'x', s[2], s[3]] + rest;
    SpoiltEscape(s[2], s[3], rest);
  }

  lemma {:induction false} Unescaped(a: string, b: string)
    requires '\\' !in a
    ensures Escapes(a + b) == a + Escapes(b)
  {
    if a == [] {
      assert a + b == b;
    } else {
      assert (a + b)[1..] == a[1..] + b;
      Unescaped(a[1..], b);
    }
  }

  /** Every other escape but `\c` prints one character for the two or more it takes. */
  lemma EscapeStep(s: string) returns (k: nat, v: char)
    requires StartsEscape(s) && s[1] != '%' && s[1] != 'c'
    ensures 2 <= k <= |s| && '%' !in s[..k]
    ensures Escapes(PercentToEscape(s)) == [v] + Escapes(PercentToEscape(s[k..]))
  {
    if s[1] == 'x' {
      k, v := HexStep(s);
    } else if OctalDigit(s[1]) {
      k, v := OctalStep(s);
    } else {
      k, v := 2, ControlChar(s[1]).value;
      EscapeText(s, 2);
    }
  }

  lemma HexStep(s: string) returns (k: nat, v: char)
    requires |s| >= 3 && s[0] == '\\' && s[1] == 'x' && HexDigit(s[2])
    ensures 2 <= k <= |s| && '%' !in s[..k]
    ensures Escapes(PercentToEscape(s)) == [v] + Escapes(PercentToEscape(s[k..]))
  {
    if |s| >= 4 && HexDigit(s[3]) {
      k, v := 4, (16 * HexValue(s[2]) + HexValue(s[3])) as char;
      assert s[..4] == ['\\', 'x', s[2], s[3]];
      EscapeText(s, 4);
      HexEscape(s[2], s[3], PercentToEscape(s[4..]));
    } else {
      k, v := 3, HexValue(s[2]) as char;
      assert s[..3] == ['\\', 'x', s[2]];
      EscapeText(s, 3);
      NoDigitAhead(s[3..]);
      ShortHexEscape(s[2], PercentToEscape(s[3..]));
    }
  }

  lemma NoDigitAhead(s: string)
    requires s != [] ==> !HexDigit(s[0])
    ensures var t := PercentToEscape(s); t != [] ==> !HexDigit(t[0])
  {
  }

  lemma ShortHexEscape(a: char, rest: string)
    requires HexDigit(a) && (rest != [] ==> !HexDigit(rest[0]))
    ensures Escapes(['\\', 'x', a] + rest) == [HexValue(a) as char] + Escapes(rest)
  {
    var t := ['\\', 'x', a] + rest;
    assert t[2..] == [a] + rest && t[2..][1..] == rest && t[3..] == rest;
    assert DigitRun(rest, HexDigit, 1) == 0;
  }

  lemma OctalStep(s: string) returns (k: nat, v: char)
    requires |s| >= 2 && s[0] == '\\' && OctalDigit(s[1])
    ensures 2 <= k <= |s| && '%' !in s[..k]
    ensures Escapes(PercentToEscape(s)) == [v] + Escapes(PercentToEscape(s[k..]))
  {
    var max := if s[1] == '0' then 4 else 3;
    var n := DigitRun(s[1..], OctalDigit, max);
    var u := s[1..];
    k := 1 + n;
    RunIsPercentFree(u, OctalDigit, max);
    SameRun(u, OctalDigit, max);
    assert s[..k] == [s[0]] + u[..n] && s[k..] == u[n..];
    EscapeText(s, 1);
    EscapeText(u, n);
    var t := PercentToEscape(s);
    assert t[1..] == PercentToEscape(u) && t[0] == s[0] && t[1..][0] == s[1];
    v := (OctalNumber(t[1..][..n]) % 256) as char;
  }

  lemma EscapeText(s: string, k: nat)
    requires k <= |s| && '%' !in s[..k]
    ensures PercentToEscape(s) == s[..k] + PercentToEscape(s[k..])
    ensures |PercentToEscape(s)| >= k && PercentToEscape(s)[k..] == PercentToEscape(s[k..])
  {
    assert s == s[..k] + s[k..];
    PercentFree(s[..k], s[k..]);
  }

  lemma HexRunOfTwo(s: string)
    requires |s| >= 2 && HexDigit(s[0]) && HexDigit(s[1])
    ensures DigitRun(s, HexDigit, 2) == 2
  {
  }

  lemma {:induction false} PlusKeepsWellFormed(s: string)
    requires WellFormed(s)
    ensures WellFormed(PlusToSpace(s))
    ensures PercentDecode(PlusToSpace(s)) == PercentDecode(s) <==> '+' !in s
    ensures |PercentDecode(PlusToSpace(s))| == |PercentDecode(s)|
    decreases |s|
  {
    if s != [] {
      var t := PlusToSpace(s);
      if s[0] == '%' {
        assert t[3..] == PlusToSpace(s[3..]);
        PlusKeepsWellFormed(s[3..]);
        TripletJoin(s);
        TripletJoin(t);
        SameHead([PercentDecode(s)[0]], PercentDecode(s[3..]), PercentDecode(t[3..]));
      } else {
        assert t[1..] == PlusToSpace(s[1..]);
        PlusKeepsWellFormed(s[1..]);
        PlainJoin(s);
        PlainJoin(t);
        assert PercentDecode(t)[0] == t[0] && PercentDecode(s)[0] == s[0];
        SameHead([s[0]], PercentDecode(s[1..]), PercentDecode(t[1..]));
      }
    }
  }

  // ---------------------------------------------------------------- what escapes print

  /** Escapes in the input of `urldecode`, whatever follows them. `\\c` ends the output. */
  lemma ControlEscapePrints(c: char, rest: string)
    requires ControlChar(c).Some?
    ensures Decode(['\\', c] + rest) == [ControlChar(c).value] + Decode(rest)
    ensures Decode(['\\', 'c'] + rest) == []
  {
    forall d | d in {c, 'c'}
      ensures Decode(['\\', d] + rest) == Escapes(['\\', d] + PercentToEscape(PlusToSpace(rest)))
    {
      DecodePrefix(['\\', d], rest);
    }
    assert (['\\', c] + PercentToEscape(PlusToSpace(rest)))[2..] == PercentToEscape(PlusToSpace(rest));
  }

  /** Text without plus and percent signs reaches `printf` as it is. */
  lemma DecodePrefix(a: string, rest: string)
    requires '%' !in a && '+' !in a
    ensures Decode(a + rest) == Escapes(a + PercentToEscape(PlusToSpace(rest)))
  {
    assert PlusToSpace(a + rest) == a + PlusToSpace(rest);
    PercentFree(a, PlusToSpace(rest));
  }

  /** Every byte can be named by a zero and three octal digits, and from 64 on by the digits alone; further digits do not
      belong to the escape. */
  lemma OctalEscapePrints(i: nat, j: nat, k: nat, rest: string)
    requires i < 4 && j < 8 && k < 8
    ensures Decode(['\\', '0', OctalChar(i), OctalChar(j), OctalChar(k)] + rest) == [(64 * i + 8 * j + k) as char] + Decode(rest)
  {
    OctalValue(i);
    OctalValue(j);
    OctalValue(k);
    ThreeDigits(OctalChar(i), OctalChar(j), OctalChar(k));
    var ds := ['0', OctalChar(i), OctalChar(j), OctalChar(k)];
    DecodeOctal(ds, rest);
    assert ['\\', '0', OctalChar(i), OctalChar(j), OctalChar(k)] == ['\\'] + ds;
  }

  lemma ShortOctalPrints(i: nat, j: nat, k: nat, rest: string)
    requires 0 < i < 4 && j < 8 && k < 8
    ensures Decode(['\\', OctalChar(i), OctalChar(j), OctalChar(k)] + rest) == [(64 * i + 8 * j + k) as char] + Decode(rest)
  {
    OctalValue(i);
    OctalValue(j);
    OctalValue(k);
    ThreeDigits(OctalChar(i), OctalChar(j), OctalChar(k));
    var ds := [OctalChar(i), OctalChar(j), OctalChar(k)];
    DecodeOctal(ds, rest);
    assert ['\\', OctalChar(i), OctalChar(j), OctalChar(k)] == ['\\'] + ds;
  }

  function OctalChar(d: nat): char
    requires d < 8
  {
    "01234567"[d]
  }

  lemma OctalValue(d: nat)
    requires d < 8
    ensures OctalDigit(OctalChar(d)) && OctalChar(d) as int - '0' as int == d
  {
  }

  lemma ThreeDigits(a: char, b: char, c: char)
    requires OctalDigit(a) && OctalDigit(b) && OctalDigit(c)
    ensures var n := 64 * (a as int - '0' as int) + 8 * (b as int - '0' as int) + (c as int - '0' as int);
            OctalNumber([a, b, c]) == n && OctalNumber(['0', a, b, c]) == n
  {
    assert [a, b, c][..2] == [a, b] && [a, b][..1] == [a] && [a][..0] == [];
    assert OctalNumber([a]) == a as int - '0' as int;
    assert OctalNumber([a, b]) == 8 * OctalNumber([a]) + (b as int - '0' as int);
    assert ['0', a, b, c][..3] == ['0', a, b] && ['0', a, b][..2] == ['0', a] && ['0', a][..1] == ['0'];
    assert OctalNumber(['0']) == 0;
    assert OctalNumber(['0', a]) == a as int - '0' as int;
    assert OctalNumber(['0', a, b]) == 8 * OctalNumber(['0', a]) + (b as int - '0' as int);
  }

  predicate OctalDigits(ds: string) {
    forall i :: 0 <= i < |ds| ==> OctalDigit(ds[i])
  }

  lemma DecodeOctal(ds: string, rest: string)
    requires OctalDigits(ds) && |ds| >= 1 && |ds| == if ds[0] == '0' then 4 else 3
    ensures Decode(['\\'] + ds + rest) == [(OctalNumber(ds) % 256) as char] + Decode(rest)
  {
    DecodePrefix(['\\'] + ds, rest);
    EscapesOctal(ds, PercentToEscape(PlusToSpace(rest)));
  }

  lemma EscapesOctal(ds: string, rest: string)
    requires OctalDigits(ds) && |ds| >= 1 && |ds| == if ds[0] == '0' then 4 else 3
    ensures Escapes(['\\'] + ds + rest) == [(OctalNumber(ds) % 256) as char] + Escapes(rest)
  {
    var s := ['\\'] + ds + rest;
    assert s[1..] == ds + rest && s[1] == ds[0];
    FullRun(ds, rest);
    assert s[1..][..|ds|] == ds && s[1..][|ds|..] == rest;
  }

  lemma {:induction false} FullRun(ds: string, rest: string)
    requires OctalDigits(ds)
    ensures DigitRun(ds + rest, OctalDigit, |ds|) == |ds|
  {
    if ds != [] {
      assert (ds + rest)[1..] == ds[1..] + rest;
      FullRun(ds[1..], rest);
    }
  }

  /** The letters "abtnvfr" print the control characters 7 to 13, `e` and `E` print 27, a backslash itself; nothing else is
      such an escape. */
  lemma ControlCharExact(c: char)
    ensures forall i :: 0 <= i < 7 ==> ("abtnvfr"[i] == c ==> ControlChar(c) == Some((7 + i) as char))
    ensures c in {'e', 'E'} ==> ControlChar(c) == Some(27 as char)
    ensures c == '\\' ==> ControlChar(c) == Some('\\')
    ensures ControlChar(c).Some? ==> c in "abtnvfreE\\"
  {
  }

  // ---------------------------------------------------------------- agreement with the reference

  /** A token that is no escape prints one character, the one it stands for in the reference. */
  lemma TokenStep(s: string) returns (n: nat, c: char)
    requires WellFormed(s) && s != [] && !StartsEscape(s)
    ensures 1 <= n <= |s| && WellFormed(s[n..])
    ensures Escapes(PercentToEscape(s)) == [c] + Escapes(PercentToEscape(s[n..]))
    ensures PercentDecode(s) == [c] + PercentDecode(s[n..])
    ensures Inert(s) <==> Inert(s[n..])
  {
    if s[0] == '%' {
      n, c := 3, (16 * HexValue(s[1]) + HexValue(s[2])) as char;
      TripletStep(s);
      assert forall i :: 0 <= i < 3 ==> s[i..][0] == s[i];
    } else {
      n, c := 1, s[0];
      PlainStep(s);
      assert s[0..] == s;
    }
    InertStep(s, n);
  }

  lemma {:induction false} LiteralPrefix(s: string, k: nat)
    requires WellFormed(s) && k <= |s| && '%' !in s[..k]
    ensures WellFormed(s[k..]) && PercentDecode(s) == s[..k] + PercentDecode(s[k..])
    decreases k
  {
    if k > 0 {
      assert s[..k][0] == s[0] && s[1..][..k - 1] == s[..k][1..] && s[1..][k - 1..] == s[k..];
      LiteralPrefix(s[1..], k - 1);
    }
  }

  lemma Shift(out: string, w: string, want: string, d: string, out': string, e: string, want': string)
    requires out == d + out' && want == e + want' && |d| <= |w| && out == w + want
    ensures out' == (w + e)[|d|..] + want'
  {
    assert w + want == (w + e) + want';
    assert out' == out[|d|..];
  }

  /** An escape never makes up for output it has swallowed: once `printf` is behind the reference it never draws level. */
  lemma {:induction false} NeverCatchesUp(s: string, w: string)
    requires WellFormed(s) && w != []
    ensures Escapes(PercentToEscape(s)) != w + PercentDecode(s)
    decreases |s|
  {
    var out, want := Escapes(PercentToEscape(s)), PercentDecode(s);
    if s != [] && out == w + want {
      if !StartsEscape(s) {
        var n, c := TokenStep(s);
        Shift(out, w, want, [c], Escapes(PercentToEscape(s[n..])), [c], PercentDecode(s[n..]));
        NeverCatchesUp(s[n..], (w + [c])[1..]);
      } else if s[1] == '%' {
        SpoiltSplit(s);
        SpoiltTriplet(s);
        var d, e := ['\\', 'x', s[2], s[3]], ['\\', (16 * HexValue(s[2]) + HexValue(s[3])) as char];
        assert out[|w|] == want[0] == '\\';
        Shift(out, w, want, d, Escapes(PercentToEscape(s[4..])), e, PercentDecode(s[4..]));
        NeverCatchesUp(s[4..], (w + e)[4..]);
      } else if s[1] != 'c' {
        var k, v := EscapeStep(s);
        LiteralPrefix(s, k);
        Shift(out, w, want, [v], Escapes(PercentToEscape(s[k..])), s[..k], PercentDecode(s[k..]));
        NeverCatchesUp(s[k..], (w + s[..k])[1..]);
      }
    }
  }

  lemma SpoiltSplit(s: string)
    requires WellFormed(s) && |s| >= 2 && s[0] == '\\' && s[1] == '%'
    ensures |s| >= 4 && HexDigit(s[2]) && HexDigit(s[3]) && WellFormed(s[4..])
    ensures PercentDecode(s) ==
            ['\\', (16 * HexValue(s[2]) + HexValue(s[3])) as char] + PercentDecode(s[4..])
  {
    var u := s[1..];
    assert u[3..] == s[4..];
    TripletSplit(u);
  }

  lemma TripletSplit(u: string)
    requires WellFormed(u) && u != [] && u[0] == '%'
    ensures |u| >= 3 && HexDigit(u[1]) && HexDigit(u[2]) && WellFormed(u[3..])
    ensures PercentDecode(u) == [(16 * HexValue(u[1]) + HexValue(u[2])) as char] + PercentDecode(u[3..])
  {
  }

  /** Nor does it once it is two characters ahead. */
  lemma {:induction false} NeverFallsBack(s: string, a: char, b: char)
    requires WellFormed(s) && a != '\\' && b != '\\'
    ensures [a, b] + Escapes(PercentToEscape(s)) != PercentDecode(s)
    decreases |s|
  {
    var out, want := Escapes(PercentToEscape(s)), PercentDecode(s);
    if s != [] && [a, b] + out == want {
      assert want[0] == a;
      if !StartsEscape(s) {
        var n, c := TokenStep(s);
        assert ([a, b] + [c])[1..] == [b, a];
        Shift(want, [a, b], out, [c], PercentDecode(s[n..]), [c], Escapes(PercentToEscape(s[n..])));
        NeverFallsBack(s[n..], b, a);
      }
    }
  }

  /** The two rewrites and the escapes decode one token after the other, exactly when no backslash starts an escape. */
  lemma {:induction false} EscapesDecode(s: string)
    requires WellFormed(s)
    ensures Escapes(PercentToEscape(s)) == PercentDecode(s) <==> Inert(s)
    decreases |s|
  {
    if s != [] {
      if !StartsEscape(s) {
        var n, c := TokenStep(s);
        EscapesDecode(s[n..]);
        var out, want := Escapes(PercentToEscape(s[n..])), PercentDecode(s[n..]);
        assert ([c] + out)[1..] == out && ([c] + want)[1..] == want;
      } else {
        assert s[0..] == s;
        EscapeIsSeen(s);
      }
    }
  }

  lemma EscapeIsSeen(s: string)
    requires WellFormed(s) && StartsEscape(s)
    ensures Escapes(PercentToEscape(s)) != PercentDecode(s)
  {
    if s[1] == '%' {
      SpoiltSplit(s);
      SpoiltTriplet(s);
      var out, want := Escapes(PercentToEscape(s[4..])), PercentDecode(s[4..]);
      NeverFallsBack(s[4..], s[2], s[3]);
      Differ(['\\', 'x', s[2], s[3]], out, ['\\', (16 * HexValue(s[2]) + HexValue(s[3])) as char], want);
    } else if s[1] == 'c' {
      EscapeText(s, 2);
    } else {
      var k, v := EscapeStep(s);
      LiteralPrefix(s, k);
      NeverCatchesUp(s[k..], s[1..k]);
      var out, want := Escapes(PercentToEscape(s[k..])), PercentDecode(s[k..]);
      assert s[..k][1..] == s[1..k];
      Differ(s[..k], want, [v], out);
    }
  }

  lemma Differ(d: string, out: string, e: string, want: string)
    requires |e| <= |d| && d[|e|..] + out != want
    ensures d + out != e + want
  {
    assert (d + out)[|e|..] == d[|e|..] + out && (e + want)[|e|..] == want;
  }

  lemma PlusKeepsInert(s: string)
    ensures Inert(PlusToSpace(s)) <==> Inert(s)
  {
    var t := PlusToSpace(s);
    forall i | 0 <= i < |s| ensures StartsEscape(t[i..]) <==> StartsEscape(s[i..]) {
      SameStart(s[i..], t[i..]);
    }
  }

  lemma SameStart(s: string, t: string)
    requires |t| == |s| && forall i :: 0 <= i < |s| ==> t[i] == if s[i] == '+' then ' ' else s[i]
    ensures StartsEscape(t) <==> StartsEscape(s)
  {
    if |s| >= 2 {
      assert s[1] == '+' ==> !OctalDigit(s[1]) && !OctalDigit(t[1]);
    }
  }

  /** A backslash before `u` or `U`, where the shell prints a code point in the encoding of its locale. */
  predicate NamesCodePoint(s: string) {
    exists i :: 0 <= i < |s| - 1 && s[i] == '\\' && s[i + 1] in ['u', 'U']
  }

  lemma SameHead(a: string, b: string, c: string)
    ensures a + b == a + c <==> b == c
  {
    assert (a + b)[|a|..] == b && (a + c)[|a|..] == c;
  }

  /** On well-formed input a plus sign comes out as a space, and apart from that `urldecode` is percent-decoding exactly
      as long as no backslash in the input starts an escape. */
  lemma DecodeAgreesWithReference(s: string)
    requires WellFormed(s) && !NamesCodePoint(s)
    ensures WellFormed(PlusToSpace(s))
    ensures Decode(s) == PercentDecode(PlusToSpace(s)) <==> Inert(s)
    ensures Inert(s) ==> (Decode(s) == PercentDecode(s) <==> '+' !in s)
  {
    PlusKeepsWellFormed(s);
    PlusKeepsInert(s);
    EscapesDecode(PlusToSpace(s));
  }

  // ---------------------------------------------------------------- round trips

  /** What `urlencode` prints: unreserved characters, and upper-case triplets for everything else but NUL. */
  predicate Canonical(t: string) {
    if t == [] then true
    else if t[0] == '%' then
      |t| >= 3 && HexDigit(t[1]) && HexDigit(t[2]) && t[1] <= 'F' && t[2] <= 'F' &&
      (var n := 16 * HexValue(t[1]) + HexValue(t[2]); n > 0 && !Unreserved(n as char)) && Canonical(t[3..])
    else Unreserved(t[0]) && Canonical(t[1..])
  }

  lemma {:induction false} CanonicalIsPlain(t: string)
    requires Canonical(t)
    ensures WellFormed(t) && '\\' !in t && '+' !in t && Inert(t) && !NamesCodePoint(t)
    decreases |t|
  {
    if t != [] {
      if t[0] == '%' {
        CanonicalIsPlain(t[3..]);
        assert t == [t[0], t[1], t[2]] + t[3..];
      } else {
        CanonicalIsPlain(t[1..]);
        assert t == [t[0]] + t[1..];
      }
    }
  }

  lemma HexRoundTrip(c: char)
    requires c as int <= 255
    ensures HexDigit(UpperHex(c as int / 16)) && HexDigit(UpperHex(c as int % 16))
    ensures UpperHex(c as int / 16) <= 'F' && UpperHex(c as int % 16) <= 'F'
    ensures 16 * HexValue(UpperHex(c as int / 16)) + HexValue(UpperHex(c as int % 16)) == c as int
  {
  }

  lemma {:induction false} EncodeIsCanonical(s: string)
    requires ShellString(s)
    ensures Canonical(Encode(s)) && WellFormed(Encode(s)) && PercentDecode(Encode(s)) == s
    decreases |s|
  {
    if s != [] {
      var t := Encode(s);
      EncodeIsCanonical(s[1..]);
      HexRoundTrip(s[0]);
      if Unreserved(s[0]) {
        assert t[1..] == Encode(s[1..]);
      } else {
        assert t[3..] == Encode(s[1..]);
      }
      assert s == [s[0]] + s[1..];
    }
  }

  // ---------------------------------------------------------------- digits of either case

  const LOWER_DIGITS := "0123456789abcdef"
  const UPPER_DIGITS := "0123456789ABCDEF"

  /** The value of a digit is its place in the sequence of digits, in either case. */
  lemma DigitExact(c: char, n: nat)
    requires n < 16
    ensures HexDigit(c) && HexValue(c) == n <==> c == LOWER_DIGITS[n] || c == UPPER_DIGITS[n]
    ensures UpperHex(n) == UPPER_DIGITS[n]
  {
  }

  predicate SpellsDigit(c: char, n: nat)
    requires n < 16
  {
    c == LOWER_DIGITS[n] || c == UPPER_DIGITS[n]
  }

  /** `t` spells `s`: unreserved characters as they are, all others as triplets, each digit in either case. */
  predicate Spells(t: string, s: string)
    requires ShellString(s)
    decreases |s|
  {
    if s == [] then t == []
    else if Unreserved(s[0]) then t != [] && t[0] == s[0] && Spells(t[1..], s[1..])
    else
      && |t| >= 3 && t[0] == '%' && SpellsDigit(t[1], s[0] as int / 16) && SpellsDigit(t[2], s[0] as int % 16)
      && Spells(t[3..], s[1..])
  }

  lemma {:induction false} SpellingDecodes(t: string, s: string)
    requires ShellString(s) && Spells(t, s)
    ensures WellFormed(t) && PercentDecode(t) == s && '\\' !in t && '+' !in t
    decreases |s|
  {
    if s != [] {
      assert s == [s[0]] + s[1..];
      if Unreserved(s[0]) {
        SpellingDecodes(t[1..], s[1..]);
        PlainJoin(t);
      } else {
        SpellingDecodes(t[3..], s[1..]);
        SpelledTriplet(t[1], t[2], s[0]);
        TripletJoin(t);
      }
    }
  }

  lemma PlainJoin(t: string)
    requires t != [] && t[0] != '%' && WellFormed(t[1..])
    ensures WellFormed(t) && PercentDecode(t) == [t[0]] + PercentDecode(t[1..])
    ensures forall c :: c in t <==> c == t[0] || c in t[1..]
  {
    assert t == [t[0]] + t[1..];
  }

  lemma TripletJoin(t: string)
    requires |t| >= 3 && t[0] == '%' && HexDigit(t[1]) && HexDigit(t[2]) && WellFormed(t[3..])
    ensures WellFormed(t) && PercentDecode(t) == [(16 * HexValue(t[1]) + HexValue(t[2])) as char] + PercentDecode(t[3..])
    ensures forall c :: c in t <==> c in [t[0], t[1], t[2]] || c in t[3..]
  {
    assert t == [t[0], t[1], t[2]] + t[3..];
  }

  lemma SpelledTriplet(a: char, b: char, c: char)
    requires c as int <= 255 && SpellsDigit(a, c as int / 16) && SpellsDigit(b, c as int % 16)
    ensures HexDigit(a) && HexDigit(b) && 16 * HexValue(a) + HexValue(b) == c as int
    ensures a !in {'\\', '+'} && b !in {'\\', '+'}
  {
    DigitExact(a, c as int / 16);
    DigitExact(b, c as int % 16);
  }

  /** Every spelling decodes to what it spells, whatever the case of its digits. */
  lemma DecodeSpelling(t: string, s: string)
    requires ShellString(s) && Spells(t, s)
    ensures Decode(t) == s
  {
    SpellingDecodes(t, s);
    forall i | 0 <= i < |t|
      ensures !StartsEscape(t[i..])
    {
      assert t[i..][0] == t[i];
    }
    DecodeAgreesWithReference(t);
  }

  /** What `urlencode` prints is the spelling with upper-case digits only. */
  lemma {:induction false} EncodeSpells(s: string)
    requires ShellString(s)
    ensures Spells(Encode(s), s)
    ensures forall c :: c in Encode(s) ==> Unreserved(c) || c == '%'
    decreases |s|
  {
    if s != [] {
      var n := if Unreserved(s[0]) then 1 else 3;
      EncodeSpells(s[1..]);
      assert Encode(s)[n..] == Encode(s[1..]);
      if n == 3 {
        DigitExact(Encode(s)[1], s[0] as int / 16);
        DigitExact(Encode(s)[2], s[0] as int % 16);
      }
    }
  }

  /** The unreserved characters in US-ASCII: the letters, the digits, and the hyphen, period, underscore and tilde of
      section 2.3 of RFC 3986. */
  lemma UnreservedExact(c: char)
    ensures var n := c as int;
            Unreserved(c) <==> 65 <= n <= 90 || 97 <= n <= 122 || 48 <= n <= 57 || n in {45, 46, 95, 126}
  {
  }

  /** Exactly the strings of these characters are printed as they are. */
  lemma {:induction false} EncodeKeepsExact(s: string)
    requires ShellString(s)
    ensures |Encode(s)| >= |s|
    ensures Encode(s) == s <==> forall c :: c in s ==> Unreserved(c)
    decreases |s|
  {
    if s != [] {
      EncodeKeepsExact(s[1..]);
      assert s == [s[0]] + s[1..];
      if Unreserved(s[0]) {
        assert Encode(s)[1..] == Encode(s[1..]);
      }
    }
  }

  /** Round trip: every shell string survives encoding and decoding. */
  lemma DecodeEncode(s: string)
    requires ShellString(s)
    ensures Decode(Encode(s)) == s
  {
    EncodeIsCanonical(s);
    CanonicalIsPlain(Encode(s));
    DecodeAgreesWithReference(Encode(s));
  }

  lemma EncodeCons(c: char, s: string)
    requires ShellString(s) && 1 <= c as int <= 255
    ensures ShellString([c] + s) && Encode([c] + s) == EncodeChar(c) + Encode(s)
  {
  }

  lemma {:induction false} EncodePercentDecode(t: string)
    requires Canonical(t) && WellFormed(t)
    ensures ShellString(PercentDecode(t)) && Encode(PercentDecode(t)) == t
    decreases |t|
  {
    if t != [] {
      var s := PercentDecode(t);
      var n := if t[0] == '%' then 3 else 1;
      CanonicalIsPlain(t[n..]);
      EncodePercentDecode(t[n..]);
      EncodeCons(s[0], PercentDecode(t[n..]));
      assert s == [s[0]] + PercentDecode(t[n..]);
      if t[0] == '%' {
        HexDigitsUnique(t[1], t[2]);
      }
      assert t == EncodeChar(s[0]) + t[n..];
    }
  }

  lemma HexDigitsUnique(a: char, b: char)
    requires HexDigit(a) && HexDigit(b) && a <= 'F' && b <= 'F'
    ensures var n := 16 * HexValue(a) + HexValue(b);
            n / 16 < 16 && UpperHex(n / 16) == a && UpperHex(n % 16) == b
  {
  }

  /** The other round trip: decoding and encoding again gives a string back exactly when `urlencode` could have printed
      it. */
  lemma EncodeDecodeExact(t: string)
    ensures (ShellString(Decode(t)) && Encode(Decode(t)) == t) <==> Canonical(t)
  {
    if Canonical(t) {
      CanonicalIsPlain(t);
      DecodeAgreesWithReference(t);
      EncodePercentDecode(t);
    }
    if ShellString(Decode(t)) && Encode(Decode(t)) == t {
      EncodeIsCanonical(Decode(t));
    }
  }

  // ---------------------------------------------------------------- the shell function

  class Shell {
    /** None when the variable is unset. */
    var lcCollate: Option<string>
    var oldLcCollate: string
    var output: string

    constructor ()
    {
      lcCollate, oldLcCollate, output := None, "", "";
    }

    /** The index loop. It prints the encoding and gives LC_COLLATE its old value back; a variable that was unset comes
        out set to the empty string. */
    method UrlEncode(arg: string)
      requires ShellString(arg)
      modifies this
      ensures output == old(output) + Encode(arg)
      ensures lcCollate == Some(if old(lcCollate).Some? then old(lcCollate).value else "")
    {
      oldLcCollate := if lcCollate.Some? then lcCollate.value else "";
      lcCollate := Some("C");
      var length := |arg|;
      for i := 0 to length
        invariant output == old(output) + Encode(arg[..i])
        invariant lcCollate == Some("C")
        invariant oldLcCollate == if old(lcCollate).Some? then old(lcCollate).value else ""
      {
        var c := arg[i];
        assert arg[..i + 1] == arg[..i] + [c];
        EncodeSnoc(arg[..i], c);
        if Unreserved(c) {
          output := output + [c];
        } else {
          output := output + ['%', UpperHex(c as int / 16), UpperHex(c as int % 16)];
        }
      }
      assert arg[..length] == arg;
      lcCollate := Some(oldLcCollate);
    }
  }
}
