/** The range tables of the portable Unicode exclusions. */
module CategoryRanges {
  import opened Common

  const CATEGORIES := {"Cc", "Cf", "Zl", "Zp"}
  const POINTS := 0x11_0000

  /** The Unicode database's general category of each code point. */
  type Database = nat -> string

  /** Surrogates have a category of their own. */
  ghost predicate SurrogatesApart(db: Database) {
    forall p: nat | 0xD800 <= p < 0xE000 :: db(p) !in CATEGORIES
  }

  datatype Span = Span(low: nat, high: nat)

  predicate In(point: nat, s: Span) {
    s.low <= point <= s.high
  }

  ghost predicate Covered(point: nat, spans: seq<Span>) {
    exists i :: 0 <= i < |spans| && In(point, spans[i])
  }

  /** Ascending spans with a gap between any two. */
  ghost predicate Separate(spans: seq<Span>) {
    && (forall i | 0 <= i < |spans| :: spans[i].low <= spans[i].high)
    && (forall i, j | 0 <= i < j < |spans| :: spans[i].high + 1 < spans[j].low)
  }

  /** The spans hold exactly the points below `n` of a category. */
  ghost predicate Tabulates(db: Database, category: string, spans: seq<Span>, n: nat) {
    && Separate(spans)
    && (forall i | 0 <= i < |spans| :: spans[i].high < n)
    && (forall p: nat | p < n :: db(p) == category <==> Covered(p, spans))
  }

  // ----- building the tables -----

  function WithPoint(spans: seq<Span>, point: nat): seq<Span> {
    if spans != [] && spans[|spans| - 1].high + 1 == point
    then spans[|spans| - 1 := Span(spans[|spans| - 1].low, point)]
    else spans + [Span(point, point)]
  }

  lemma {:induction false} WithPointTabulates(db: Database, category: string, spans: seq<Span>, point: nat)
    requires Tabulates(db, category, spans, point) && db(point) == category
    ensures Tabulates(db, category, WithPoint(spans, point), point + 1)
  {
    hide Covered, Separate, WithPoint;
    var after := WithPoint(spans, point);
    WithPointSeparate(spans, point);
    forall p: nat ensures Covered(p, after) <==> Covered(p, spans) || p == point {
      WithPointCovers(spans, point, p);
    }
  }

  lemma {:induction false} WithPointSeparate(spans: seq<Span>, point: nat)
    requires Separate(spans) && forall i | 0 <= i < |spans| :: spans[i].high < point
    ensures Separate(WithPoint(spans, point))
    ensures forall i | 0 <= i < |WithPoint(spans, point)| :: WithPoint(spans, point)[i].high < point + 1
  {
  }

  lemma {:induction false} WithPointCovers(spans: seq<Span>, point: nat, p: nat)
    requires Separate(spans) && forall i | 0 <= i < |spans| :: spans[i].high < point
    ensures Covered(p, WithPoint(spans, point)) <==> Covered(p, spans) || p == point
  {
    var after := WithPoint(spans, point);
    if Covered(p, spans) {
      var i :| 0 <= i < |spans| && In(p, spans[i]);
      assert In(p, after[i]);
    }
    if Covered(p, after) && p != point {
      var i :| 0 <= i < |after| && In(p, after[i]);
      assert In(p, spans[i]);
    }
    if p == point {
      assert In(p, after[|after| - 1]);
    }
  }

  lemma {:induction false} OtherPointTabulates(db: Database, category: string, spans: seq<Span>, point: nat)
    requires Tabulates(db, category, spans, point) && db(point) != category
    ensures Tabulates(db, category, spans, point + 1)
  {
    assert !Covered(point, spans);
  }

  /** One pass over every code point, extending the last span or opening a new one. */
  method CategorySpans(db: Database) returns (ranges: map<string, seq<Span>>)
    ensures ranges.Keys == CATEGORIES
    ensures forall c | c in CATEGORIES :: Tabulates(db, c, ranges[c], POINTS)
  {
    hide Tabulates;
    ranges := map c | c in CATEGORIES :: [];
    forall c | c in CATEGORIES ensures Tabulates(db, c, ranges[c], 0) {
      EmptyTabulates(db, c);
    }
    for point := 0 to POINTS
      invariant ranges.Keys == CATEGORIES
      invariant forall c | c in CATEGORIES :: Tabulates(db, c, ranges[c], point)
    {
      var category := db(point);
      forall c | c in CATEGORIES && c != category ensures Tabulates(db, c, ranges[c], point + 1) {
        OtherPointTabulates(db, c, ranges[c], point);
      }
      if category !in ranges {
        continue;
      }
      WithPointTabulates(db, category, ranges[category], point);
      var spans := ranges[category];
      if spans != [] && spans[|spans| - 1].high == point - 1 {
        spans := spans[|spans| - 1 := Span(spans[|spans| - 1].low, point)];
      } else {
        spans := spans + [Span(point, point)];
      }
      ranges := ranges[category := spans];
    }
  }

  lemma {:induction false} EmptyTabulates(db: Database, category: string)
    ensures Tabulates(db, category, [], 0)
  {
  }

  // ----- what the tables are -----

  /** No span can be widened: the points just outside it are not of the category. */
  lemma {:induction false} SpansAreMaximal(db: Database, category: string, spans: seq<Span>, n: nat, i: nat)
    requires Tabulates(db, category, spans, n) && i < |spans|
    ensures forall p: nat | In(p, spans[i]) :: db(p) == category
    ensures spans[i].low > 0 ==> db(spans[i].low - 1) != category
    ensures spans[i].high + 1 < n ==> db(spans[i].high + 1) != category
  {
    forall p: nat | In(p, spans[i]) ensures db(p) == category {
      assert Covered(p, spans);
    }
    if spans[i].low > 0 {
      NotBetween(spans, i, spans[i].low - 1);
    }
    NotBetween(spans, i, spans[i].high + 1);
  }

  lemma {:induction false} NotBetween(spans: seq<Span>, i: nat, p: nat)
    requires Separate(spans) && i < |spans| && (p + 1 == spans[i].low || p == spans[i].high + 1)
    ensures !Covered(p, spans)
  {
    if Covered(p, spans) {
      var j :| 0 <= j < |spans| && In(p, spans[j]);
      if j < i {
          assert false;
      } else if i < j {
          assert false;
      }
    }
  }

  /** A category has one table. */
  lemma {:induction false} TablesAreUnique(db: Database, category: string, xs: seq<Span>, ys: seq<Span>, n: nat)
    requires Tabulates(db, category, xs, n) && Tabulates(db, category, ys, n)
    ensures xs == ys
  {
    var m := if |xs| < |ys| then |xs| else |ys|;
    forall i | 0 <= i < m ensures xs[i] == ys[i] {
      SameSpan(db, category, xs, ys, n, i);
    }
    if |xs| < |ys| {
      NoExtraSpan(db, category, xs, ys, n);
    } else if |ys| < |xs| {
      NoExtraSpan(db, category, ys, xs, n);
    }
  }

  lemma {:induction false} NoExtraSpan(db: Database, category: string, xs: seq<Span>, ys: seq<Span>, n: nat)
    requires Tabulates(db, category, xs, n) && Tabulates(db, category, ys, n) && |xs| <= |ys|
    requires forall i | 0 <= i < |xs| :: xs[i] == ys[i]
    ensures |xs| == |ys|
  {
    if |xs| < |ys| {
      var p := ys[|xs|].low;
      assert In(p, ys[|xs|]);
      assert Covered(p, ys);
      assert false;
    }
  }

  lemma {:induction false} SameSpan(db: Database, category: string, xs: seq<Span>, ys: seq<Span>, n: nat, i: nat)
    requires Tabulates(db, category, xs, n) && Tabulates(db, category, ys, n) && i < |xs| && i < |ys|
    ensures xs[i] == ys[i]
  {
    forall j | 0 <= j < i ensures xs[j] == ys[j] {
      SameSpan(db, category, xs, ys, n, j);
    }
    LowNotBelow(db, category, xs, ys, n, i);
    LowNotBelow(db, category, ys, xs, n, i);
    HighNotAbove(db, category, xs, ys, n, i);
    HighNotAbove(db, category, ys, xs, n, i);
  }

  lemma {:induction false} LowNotBelow(db: Database, category: string, xs: seq<Span>, ys: seq<Span>, n: nat, i: nat)
    requires Tabulates(db, category, xs, n) && Tabulates(db, category, ys, n) && i < |xs| && i < |ys|
    requires forall j | 0 <= j < i :: xs[j] == ys[j]
    ensures ys[i].low <= xs[i].low
  {
    var p := xs[i].low;
    assert In(p, xs[i]);
    assert Covered(p, xs) && Covered(p, ys);
    var k :| 0 <= k < |ys| && In(p, ys[k]);
    if k < i {
      assert false;
    }
  }

  lemma {:induction false} HighNotAbove(db: Database, category: string, xs: seq<Span>, ys: seq<Span>, n: nat, i: nat)
    requires Tabulates(db, category, xs, n) && Tabulates(db, category, ys, n) && i < |xs| && i < |ys|
    requires xs[i].low == ys[i].low
    ensures xs[i].high <= ys[i].high
  {
    if xs[i].high > ys[i].high {
      SpansAreMaximal(db, category, ys, n, i);
      assert In(ys[i].high + 1, xs[i]);
      assert Covered(ys[i].high + 1, xs);
    }
  }

  // ----- writing a table -----

  function Hex(d: nat): char
    requires d < 16
  {
    if d < 10 then ('0' as int + d) as char else ('A' as int + d - 10) as char
  }

  function HexValue(c: char): Option<nat> {
    if '0' <= c <= '9' then Some(c as int - '0' as int)
    else if 'A' <= c <= 'F' then Some(c as int - 'A' as int + 10)
    else if 'a' <= c <= 'f' then Some(c as int - 'a' as int + 10)
    else None
  }

  predicate Scalar(point: nat) {
    point < 0xD800 || 0xE000 <= point < POINTS
  }

  /** Points of the basic plane as four-digit escapes, others as themselves. */
  function CodePoint(point: nat): string
    requires Scalar(point)
  {
    if point <= 0xFFFF then ['\\', 'u', Hex(point / 16 / 16 / 16), Hex(point / 16 / 16 % 16), Hex(point / 16 % 16), Hex(point % 16)]
    else [point as char]
  }

  predicate Printable(spans: seq<Span>) {
    forall i | 0 <= i < |spans| :: Scalar(spans[i].low) && Scalar(spans[i].high)
  }

  function SpanText(s: Span): string
    requires Scalar(s.low) && Scalar(s.high)
  {
    if s.low == s.high then CodePoint(s.low) else CodePoint(s.low) + "-" + CodePoint(s.high)
  }

  function TableText(spans: seq<Span>): string
    requires Printable(spans)
  {
    if spans == [] then "" else SpanText(spans[0]) + TableText(spans[1..])
  }

  lemma {:induction false} TablesArePrintable(db: Database, category: string, spans: seq<Span>)
    requires SurrogatesApart(db) && category in CATEGORIES && Tabulates(db, category, spans, POINTS)
    ensures Printable(spans)
  {
    forall i | 0 <= i < |spans| ensures Scalar(spans[i].low) && Scalar(spans[i].high) {
      SpansAreMaximal(db, category, spans, POINTS, i);
      assert In(spans[i].low, spans[i]) && In(spans[i].high, spans[i]);
    }
  }

  // ----- reading a table as a regular expression does -----

  function ReadPoint(s: string): Option<(nat, string)> {
    if s == "" then None
    else if s[0] == '\\' then
      if |s| < 6 || s[1] != 'u' then None
      else
        var h0, h1, h2, h3 := HexValue(s[2]), HexValue(s[3]), HexValue(s[4]), HexValue(s[5]);
        if h0.None? || h1.None? || h2.None? || h3.None? then None
        else Some((h0.value * 4096 + h1.value * 256 + h2.value * 16 + h3.value, s[6..]))
    else Some((s[0] as int, s[1..]))
  }

  /** Points and dashed pairs of points, as the members of a character class. */
  function ReadTable(s: string, fuel: nat): Option<seq<Span>> {
    if s == "" then Some([])
    else if fuel == 0 || ReadPoint(s).None? then None
    else
      var (low, rest) := ReadPoint(s).value;
      if rest != "" && rest[0] == '-' then
        if ReadPoint(rest[1..]).None? then None
        else
          var (high, rest') := ReadPoint(rest[1..]).value;
          var tail := ReadTable(rest', fuel - 1);
          if tail.None? then None else Some([Span(low, high)] + tail.value)
      else
        var tail := ReadTable(rest, fuel - 1);
        if tail.None? then None else Some([Span(low, low)] + tail.value)
  }

  lemma {:induction false} HexRead(d: nat)
    requires d < 16
    ensures HexValue(Hex(d)) == Some(d)
  {
  }

  lemma {:induction false} FourDigits(point: nat)
    requires point <= 0xFFFF
    ensures point / 16 / 16 / 16 * 4096 + point / 16 / 16 % 16 * 256 + point / 16 % 16 * 16 + point % 16 == point
    ensures point / 16 / 16 / 16 < 16
  {
    var a := point / 16;
    var b := a / 16;
    assert point == a * 16 + point % 16 && a == b * 16 + a % 16 && b == b / 16 * 16 + b % 16;
  }

  lemma {:induction false} PointReadsBack(point: nat, rest: string)
    requires Scalar(point)
    ensures CodePoint(point) != "" && CodePoint(point)[0] != '-'
    ensures ReadPoint(CodePoint(point) + rest) == Some((point, rest))
  {
    hide Hex, HexValue;
    var s := CodePoint(point) + rest;
    if point <= 0xFFFF {
      FourDigits(point);
      HexRead(point / 16 / 16 / 16);
      HexRead(point / 16 / 16 % 16);
      HexRead(point / 16 % 16);
      HexRead(point % 16);
      assert s[6..] == rest;
    } else {
      assert s[1..] == rest;
    }
  }

  /** The written table reads back as the same spans. */
  lemma {:induction false} TableReadsBack(spans: seq<Span>)
    requires Printable(spans)
    ensures ReadTable(TableText(spans), |spans|) == Some(spans)
    ensures TableText(spans) != "" ==> TableText(spans)[0] != '-'
  {
    hide CodePoint, ReadPoint;
    if spans != [] {
      TableReadsBack(spans[1..]);
      var tail := TableText(spans[1..]);
      var low, high := spans[0].low, spans[0].high;
      if low == high {
        PointReadsBack(low, tail);
      } else {
        PointReadsBack(low, "-" + CodePoint(high) + tail);
        PointReadsBack(high, tail);
        assert TableText(spans) == CodePoint(low) + ("-" + CodePoint(high) + tail);
        assert ("-" + CodePoint(high) + tail)[1..] == CodePoint(high) + tail;
      }
      assert spans == [spans[0]] + spans[1..];
    }
  }
}
