/** The carrier text: URL-safe base64 with its padding stripped (RFC 4648, sections 5 and 3.2). */
module Base64Url {
  import opened Common

  type byte = x: int | 0 <= x < 256

  // ----- digits -----

  function D0(x: byte): (d: nat) ensures d < 64 { x / 4 }

  function D1(x: byte, y: byte): (d: nat) ensures d < 64 { x % 4 * 16 + y / 16 }

  function D2(y: byte, z: byte): (d: nat) ensures d < 64 { y % 16 * 4 + z / 64 }

  function D3(z: byte): (d: nat) ensures d < 64 { z % 64 }

  function J0(d0: nat, d1: nat): byte requires d0 < 64 && d1 < 64 { d0 * 4 + d1 / 16 }

  function J1(d1: nat, d2: nat): byte requires d1 < 64 && d2 < 64 { d1 % 16 * 16 + d2 / 4 }

  function J2(d2: nat, d3: nat): byte requires d2 < 64 && d3 < 64 { d2 % 4 * 64 + d3 }

  lemma {:induction false} JoinedDigits(x: byte, y: byte, z: byte)
    ensures J0(D0(x), D1(x, y)) == x
    ensures J1(D1(x, y), D2(y, z)) == y
    ensures J2(D2(y, z), D3(z)) == z
  {
  }

  function Letter(d: nat): (c: char)
    requires d < 64
    ensures c != '='
  {
    if d < 26 then ('A' as int + d) as char
    else if d < 52 then ('a' as int + d - 26) as char
    else if d < 62 then ('0' as int + d - 52) as char
    else if d == 62 then '-' else '_'
  }

  /** `-` and `_` are translated to `+` and `/`, which are therefore read as well. */
  function Value(c: char): (v: Option<nat>)
    ensures v.Some? ==> v.value < 64
  {
    if 'A' <= c <= 'Z' then Some(c as int - 'A' as int)
    else if 'a' <= c <= 'z' then Some(c as int - 'a' as int + 26)
    else if '0' <= c <= '9' then Some(c as int - '0' as int + 52)
    else if c == '-' || c == '+' then Some(62)
    else if c == '_' || c == '/' then Some(63)
    else None
  }

  lemma {:induction false} LetterValue(d: nat)
    requires d < 64
    ensures Value(Letter(d)) == Some(d)
  {
  }

  // ----- texts -----

  function Padded(b: seq<byte>): string {
    if b == [] then ""
    else if |b| == 1 then [Letter(D0(b[0])), Letter(D1(b[0], 0)), '=', '=']
    else if |b| == 2 then [Letter(D0(b[0])), Letter(D1(b[0], b[1])), Letter(D2(b[1], 0)), '=']
    else [Letter(D0(b[0])), Letter(D1(b[0], b[1])), Letter(D2(b[1], b[2])), Letter(D3(b[2]))] + Padded(b[3..])
  }

  function Pads(n: nat): string {
    if n == 0 then "" else Pads(n - 1) + "="
  }

  function Stripped(s: string): string {
    if s != "" && s[|s| - 1] == '=' then Stripped(s[..|s| - 1]) else s
  }

  function Encode(b: seq<byte>): string {
    Stripped(Padded(b))
  }

  /** Strict decoding: whole quads, padding only in the last one. */
  function Quads(s: string): Option<seq<byte>> {
    if s == "" then Some([])
    else if |s| < 4 then None
    else
      var v0, v1, v2, v3 := Value(s[0]), Value(s[1]), Value(s[2]), Value(s[3]);
      if v0.None? || v1.None? then None
      else if |s| == 4 && s[2] == '=' && s[3] == '=' then Some([J0(v0.value, v1.value)])
      else if v2.None? then None
      else if |s| == 4 && s[3] == '=' then Some([J0(v0.value, v1.value), J1(v1.value, v2.value)])
      else if v3.None? || Quads(s[4..]).None? then None
      else Some([J0(v0.value, v1.value), J1(v1.value, v2.value), J2(v2.value, v3.value)] + Quads(s[4..]).value)
  }

  function Decode(s: string): Option<seq<byte>> {
    Quads(s + Pads((0 - |s|) % 4))
  }

  lemma {:induction false} QuadsReadPadded(b: seq<byte>)
    ensures Quads(Padded(b)) == Some(b)
  {
    hide Letter, Value, D0, D1, D2, D3, J0, J1, J2;
    if b != [] {
      var x, y, z := b[0], if |b| > 1 then b[1] else 0, if |b| > 2 then b[2] else 0;
      JoinedDigits(x, y, z);
      LetterValue(D0(x));
      LetterValue(D1(x, y));
      LetterValue(D2(y, z));
      LetterValue(D3(z));
      if |b| == 1 {
        assert b == [x];
      } else if |b| == 2 {
        assert b == [x, y];
      } else {
        QuadsReadPadded(b[3..]);
        assert Padded(b)[4..] == Padded(b[3..]);
        assert b == [x, y, z] + b[3..];
      }
    }
  }

  ghost predicate StripsTo(s: string, n: nat) {
    n <= 2 && n <= |s| && |Stripped(s)| == |s| - n && s == Stripped(s) + Pads(n)
  }

  /** Padded text is a whole number of quads with at most two padding characters, all trailing. */
  lemma {:induction false} PaddedShape(b: seq<byte>) returns (n: nat)
    ensures |Padded(b)| % 4 == 0 && StripsTo(Padded(b), n)
  {
    hide Letter, D0, D1, D2, D3, StripsTo;
    var s := Padded(b);
    if |b| == 0 {
      n := 0;
      NoPads("");
    } else if |b| == 1 {
      n := 2;
      NoPads(s[..2]);
      MorePads(s[..2], 0);
      MorePads(s[..2] + "=", 1);
      assert s == s[..2] + "=" + "=";
    } else if |b| == 2 {
      n := 1;
      NoPads(s[..3]);
      MorePads(s[..3], 0);
      assert s == s[..3] + "=";
    } else {
      n := PaddedShape(b[3..]);
      HeadPads(s[..4], Padded(b[3..]), n);
      assert s == s[..4] + Padded(b[3..]);
    }
  }

  lemma {:induction false} NoPads(s: string)
    requires s != "" ==> s[|s| - 1] != '='
    ensures StripsTo(s, 0)
  {
    assert s + Pads(0) == s;
  }

  lemma {:induction false} MorePads(s: string, n: nat)
    requires StripsTo(s, n) && n < 2
    ensures StripsTo(s + "=", n + 1)
  {
    OnePad(s);
    assert s + "=" == Stripped(s) + (Pads(n) + "=");
  }

  lemma {:induction false} HeadPads(head: string, rest: string, n: nat)
    requires head != "" && head[|head| - 1] != '=' && StripsTo(rest, n)
    ensures StripsTo(head + rest, n)
  {
    StrippedAppend(head, rest);
    assert head + rest == (head + Stripped(rest)) + Pads(n);
  }

  lemma {:induction false} OnePad(s: string)
    ensures Stripped(s + "=") == Stripped(s)
  {
    assert (s + "=")[..|s|] == s;
  }

  lemma {:induction false} StrippedAppend(head: string, rest: string)
    requires head != "" && head[|head| - 1] != '='
    ensures Stripped(head + rest) == head + Stripped(rest)
    decreases |rest|
  {
    var s := head + rest;
    if rest == "" {
      assert s == head;
    } else if rest[|rest| - 1] == '=' {
      assert s[..|s| - 1] == head + rest[..|rest| - 1];
      StrippedAppend(head, rest[..|rest| - 1]);
    }
  }

  lemma {:induction false} PadCount(m: int, n: int)
    requires 0 <= n <= 2 && (m + n) % 4 == 0
    ensures (0 - m) % 4 == n
  {
  }

  /** Reading a stripped text back restores every byte. */
  lemma {:induction false} RoundTrip(b: seq<byte>)
    ensures Decode(Encode(b)) == Some(b)
  {
    hide Padded, Quads, Stripped;
    var n := PaddedShape(b);
    PadCount(|Encode(b)|, n);
    QuadsReadPadded(b);
  }
}
