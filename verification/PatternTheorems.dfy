/** Translating a pattern keeps what every class of it matches. */
module PatternTheorems {
  import opened Common
  import opened CategoryRanges
  import opened SchemaPatterns
  import opened PatternMeaning

  type Tables = map<string, seq<Span>>

  // ----- the tokens of the rewritten pattern -----

  function SpanTokens(s: Span): seq<string>
    requires Scalar(s.low) && Scalar(s.high)
  {
    if s.low == s.high then [CodePoint(s.low)] else [CodePoint(s.low), "-", CodePoint(s.high)]
  }

  function TableTokens(spans: seq<Span>): seq<string>
    requires Printable(spans)
  {
    if spans == [] then [] else SpanTokens(spans[0]) + TableTokens(spans[1..])
  }

  ghost predicate Filled(tables: Tables) {
    tables.Keys == CATEGORIES && forall c | c in CATEGORIES :: Printable(tables[c]) && tables[c] != []
  }

  function TokensFor(t: string, tables: Tables): seq<string>
    requires Filled(tables)
  {
    if IsCategory(t) then TableTokens(tables[CategoryIn(t)]) else [t]
  }

  /** The tokens with each category replaced by the tokens of its table. */
  function Expanded(tokens: seq<string>, tables: Tables): seq<string>
    requires Filled(tables)
  {
    if tokens == [] then [] else TokensFor(tokens[0], tables) + Expanded(tokens[1..], tables)
  }

  lemma {:induction false} ExpandedAppend(xs: seq<string>, ys: seq<string>, tables: Tables)
    requires Filled(tables)
    ensures Expanded(xs + ys, tables) == Expanded(xs, tables) + Expanded(ys, tables)
  {
    hide TokensFor, Filled;
    if xs == [] {
      assert xs + ys == ys;
    } else {
      ExpandedAppend(xs[1..], ys, tables);
      assert (xs + ys)[1..] == xs[1..] + ys;
    }
  }

  lemma {:induction false} ExpandedOne(t: string, tables: Tables)
    requires Filled(tables)
    ensures Expanded([t], tables) == TokensFor(t, tables)
  {
    hide TokensFor;
    assert [t][1..] == [];
  }

  lemma {:induction false} ExpandedSnoc(xs: seq<string>, t: string, tables: Tables)
    requires Filled(tables)
    ensures Expanded(xs + [t], tables) == Expanded(xs, tables) + TokensFor(t, tables)
  {
    hide TokensFor;
    ExpandedAppend(xs, [t], tables);
    ExpandedOne(t, tables);
  }

  /** What the tokens of a table begin with, end with and never contain. */
  lemma {:induction false} TableTokensAreInert(spans: seq<Span>)
    requires Printable(spans)
    ensures forall k | 0 <= k < |TableTokens(spans)| ::
              TableTokens(spans)[k] != "[" && TableTokens(spans)[k] != "]" && TableTokens(spans)[k] != "^"
    ensures spans != [] ==> TableTokens(spans) != [] && TableTokens(spans)[0] != "-"
                            && exists point :: Scalar(point) && Last(TableTokens(spans)) == CodePoint(point)
  {
    if spans != [] {
      TableTokensAreInert(spans[1..]);
      CodePointIsInert(spans[0].low);
      CodePointIsInert(spans[0].high);
      hide CodePoint;
      if spans[1..] == [] {
        assert TableTokens(spans) == SpanTokens(spans[0]);
        assert Last(TableTokens(spans)) == CodePoint(spans[0].high);
      } else {
        assert Last(TableTokens(spans)) == Last(TableTokens(spans[1..]));
      }
    }
  }

  lemma {:induction false} CodePointIsInert(point: nat)
    requires Scalar(point)
    ensures CodePoint(point) !in {"[", "]", "^", "-"} && !IsCategory(CodePoint(point))
  {
    if point <= 0xFFFF {
      assert CodePoint(point)[1] == 'u';
    }
  }

  // ----- reading tables and atoms off the text -----

  /** A token that no backslash, bracket, dash or astral character continues. */
  predicate Settled(t: string) {
    t == "" || t[0] != '\\' || (|t| >= 2 && (t[1] == 'p' || t[1] == 'P' ==> |t| >= 3 && t[|t| - 1] == '}'))
  }

  ghost predicate Ready(tokens: seq<string>) {
    tokens != [] ==> Settled(Last(tokens))
  }

  /** Only an escape is continued, by a plain character, and it stays no category. */
  lemma {:induction false} ContinuedIsPlain(d: Dialect, t: string, c: char)
    requires Settled(t) && Continues(d, t, c)
    ensures Plain(c) && Settled(t + [c]) && !IsCategory(t + [c]) && !IsCategory(t) && |t| >= 2 && t[0] == '\\'
  {
    assert (t + [c])[1] == t[1];
  }

  /** Each prefix of the token goes on with the next character. */
  ghost predicate Grows(d: Dialect, t: string) {
    forall n | 1 <= n < |t| :: Continues(d, t[..n], t[n])
  }

  /** A text that grows character by character from one no token goes on with is a whole token. */
  lemma {:induction false} WholeToken(d: Dialect, tokens: seq<string>, t: string, rest: string)
    requires Ready(tokens) && t != "" && !Plain(t[0]) && Grows(d, t)
    ensures LexOnto(d, tokens, t + rest) == LexOnto(d, tokens + [t], rest)
  {
    if tokens != [] && Continues(d, Last(tokens), t[0]) {
      ContinuedIsPlain(d, Last(tokens), t[0]);
    }
    hide Continues, Settled, Grows;
    assert (t + rest)[1..] == t[1..] + rest && [t[0]] == t[..1];
    RestOfToken(d, tokens, t, 1, rest);
  }

  lemma {:induction false} RestOfToken(d: Dialect, tokens: seq<string>, t: string, n: nat, rest: string)
    requires 1 <= n <= |t| && Grows(d, t)
    ensures LexOnto(d, tokens + [t[..n]], t[n..] + rest) == LexOnto(d, tokens + [t], rest)
    decreases |t| - n
  {
    hide Continues;
    if n == |t| {
      assert t[..n] == t && t[n..] + rest == rest;
    } else {
      RestOfToken(d, tokens, t, n + 1, rest);
      var before, s := tokens + [t[..n]], t[n..] + rest;
      assert Last(before) == t[..n] && Front(before) == tokens;
      assert t[..n] + [t[n]] == t[..n + 1];
      assert s[0] == t[n] && s[1..] == t[n + 1..] + rest;
      assert Feed(d, before, s[0]) == tokens + [t[..n + 1]];
    }
  }

  /** A code point as the tables write it is a whole token. */
  lemma {:induction false} CodePointLexes(d: Dialect, tokens: seq<string>, point: nat, rest: string)
    requires Ready(tokens) && Scalar(point)
    ensures LexOnto(d, tokens, CodePoint(point) + rest) == LexOnto(d, tokens + [CodePoint(point)], rest)
    ensures Settled(CodePoint(point)) && forall c :: !Continues(d, CodePoint(point), c)
  {
    hide LexOnto;
    if point <= 0xFFFF {
      QuadIsHex(point);
      hide CodePoint;
    }
    WholeToken(d, tokens, CodePoint(point), rest);
  }

  lemma {:induction false} QuadIsHex(point: nat)
    requires Scalar(point) && point <= 0xFFFF
    ensures var s := CodePoint(point); |s| == 6 && s[0] == '\\' && s[1] == 'u' && AllHex(s[2..])
  {
    FourDigits(point);
    HexRead(point / 16 / 16 / 16);
    HexRead(point / 16 / 16 % 16);
    HexRead(point / 16 % 16);
    HexRead(point % 16);
  }

  /** Behind whatever stands before it, the text of a table is the tokens of the table. */
  lemma {:induction false} TableLexes(d: Dialect, tokens: seq<string>, spans: seq<Span>, rest: string)
    requires Ready(tokens) && Printable(spans)
    ensures LexOnto(d, tokens, TableText(spans) + rest) == LexOnto(d, tokens + TableTokens(spans), rest)
    decreases |spans|
  {
    hide CodePoint, LexOnto, Scalar, Continues, Settled;
    if spans == [] {
      assert TableText(spans) + rest == rest && tokens + TableTokens(spans) == tokens;
    } else {
      var low, high := spans[0].low, spans[0].high;
      var tail := TableText(spans[1..]) + rest;
      var after := tokens + SpanTokens(spans[0]);
      assert TableText(spans) + rest == SpanText(spans[0]) + tail;
      assert tokens + TableTokens(spans) == after + TableTokens(spans[1..]);
      if low == high {
        CodePointLexes(d, tokens, low, tail);
      } else {
        var first := tokens + [CodePoint(low)];
        CodePointLexes(d, tokens, low, "-" + CodePoint(high) + tail);
        DashLexes(d, first, CodePoint(high) + tail);
        CodePointLexes(d, first + ["-"], high, tail);
        assert SpanText(spans[0]) + tail == CodePoint(low) + ("-" + CodePoint(high) + tail);
        assert "-" + CodePoint(high) + tail == "-" + (CodePoint(high) + tail);
        assert first + ["-"] + [CodePoint(high)] == after;
      }
      TableLexes(d, after, spans[1..], rest);
    }
  }

  lemma {:induction false} DashLexes(d: Dialect, tokens: seq<string>, rest: string)
    requires Ready(tokens)
    ensures LexOnto(d, tokens, "-" + rest) == LexOnto(d, tokens + ["-"], rest)
    ensures Settled("-")
  {
    WholeToken(d, tokens, "-", rest);
  }

  /** A category escape is a whole token. */
  lemma {:induction false} AtomLexes(d: Dialect, tokens: seq<string>, category: string, rest: string)
    requires Ready(tokens) && category in CATEGORIES
    ensures var t := "\\p{" + category + "}";
            && LexOnto(d, tokens, t + rest) == LexOnto(d, tokens + [t], rest)
            && IsCategory(t) && CategoryIn(t) == category && Settled(t)
  {
    hide LexOnto;
    WholeToken(d, tokens, "\\p{" + category + "}", rest);
  }

  // ----- a class and its expansion match the same points -----

  ghost predicate NoDash(tokens: seq<string>) {
    tokens != [] ==> tokens[0] != "-"
  }

  /** A member that no dash follows stands by itself. */
  lemma {:induction false} OneThenRest(d: Dialect, db: Database, t: string, rest: seq<string>, point: nat)
    requires NoDash(rest)
    ensures Holds(d, db, [t] + rest, point) <==> OneHolds(d, db, t, point) || Holds(d, db, rest, point)
  {
    hide OneHolds, RangeHolds;
    assert ([t] + rest)[1..] == rest;
    if rest != [] {
      assert ([t] + rest)[1] == rest[0];
    }
  }

  lemma {:induction false} RangeThenRest(d: Dialect, db: Database, t: string, u: string, rest: seq<string>, point: nat)
    ensures Holds(d, db, [t, "-", u] + rest, point) <==> RangeHolds(d, t, u, point) || Holds(d, db, rest, point)
  {
    hide OneHolds, RangeHolds;
    assert ([t, "-", u] + rest)[3..] == rest;
  }

  lemma {:induction false} CodePointNames(d: Dialect, point: nat)
    requires Scalar(point)
    ensures PointOf(d, CodePoint(point)) == Some(point)
  {
    hide CodePoint, ReadPoint;
    PointReadsBack(point, "");
    assert CodePoint(point) + "" == CodePoint(point);
  }

  /** A table written into a class stands for exactly the points its spans cover. */
  lemma {:induction false} TableHolds(d: Dialect, db: Database, spans: seq<Span>, rest: seq<string>, point: nat)
    requires Printable(spans) && NoDash(rest)
    requires forall i | 0 <= i < |spans| :: spans[i].low <= spans[i].high
    ensures Holds(d, db, TableTokens(spans) + rest, point) <==> Covered(point, spans) || Holds(d, db, rest, point)
    decreases |spans|
  {
    hide Holds, CodePoint, Covered, PointOf, IsCategory, Scalar;
    CoveredUnfolds(point, spans);
    if spans == [] {
      assert TableTokens(spans) + rest == rest;
    } else {
      var low, high := spans[0].low, spans[0].high;
      var tail := TableTokens(spans[1..]) + rest;
      TableHolds(d, db, spans[1..], rest, point);
      TableTokensAreInert(spans[1..]);
      CodePointNames(d, low);
      CodePointNames(d, high);
      CodePointIsInert(low);
      assert TableTokens(spans) + rest == SpanTokens(spans[0]) + tail;
      if low == high {
        OneThenRest(d, db, CodePoint(low), tail, point);
      } else {
        RangeThenRest(d, db, CodePoint(low), CodePoint(high), tail, point);
      }
    }
  }

  lemma {:induction false} CoveredUnfolds(point: nat, spans: seq<Span>)
    ensures Covered(point, spans) <==> spans != [] && (In(point, spans[0]) || Covered(point, spans[1..]))
  {
    if Covered(point, spans) {
      var i :| 0 <= i < |spans| && In(point, spans[i]);
      if i > 0 {
        assert In(point, spans[1..][i - 1]);
      }
    }
    if spans != [] && Covered(point, spans[1..]) {
      var i :| 0 <= i < |spans[1..]| && In(point, spans[1..][i]);
      assert In(point, spans[i + 1]);
    }
  }

  /** A dash beside a category. */
  predicate Clash(t: string, u: string) {
    (IsCategory(t) && u == "-") || (t == "-" && IsCategory(u))
  }

  /** No dash touches a category. */
  ghost predicate Seamless(tokens: seq<string>) {
    forall k | 0 < k < |tokens| :: !Clash(tokens[k - 1], tokens[k])
  }

  lemma {:induction false} SeamlessTail(tokens: seq<string>, n: nat)
    requires Seamless(tokens) && n <= |tokens|
    ensures Seamless(tokens[n..])
  {
    hide Clash;
    var tail := tokens[n..];
    forall k | 0 < k < |tail| ensures !Clash(tail[k - 1], tail[k]) {
      assert tail[k - 1] == tokens[n + k - 1] && tail[k] == tokens[n + k];
    }
  }

  /** Expanding neither uncovers nor hides a special first token. */
  lemma {:induction false} ExpandedFirst(tokens: seq<string>, tables: Tables)
    requires Filled(tables)
    ensures var e := Expanded(tokens, tables);
            && (e == [] <==> tokens == [])
            && (tokens != [] ==> (e[0] == "-" <==> tokens[0] == "-") && (e[0] == "^" <==> tokens[0] == "^"))
  {
    if tokens != [] && IsCategory(tokens[0]) {
      TableTokensAreInert(tables[CategoryIn(tokens[0])]);
    }
  }

  /** The body of a class and its expansion have members for the same points. */
  lemma {:induction false} ExpandedHolds(d: Dialect, db: Database, body: seq<string>, tables: Tables, point: nat)
    requires TablesOf(db, tables) && Filled(tables) && Seamless(body) && point < POINTS
    ensures Holds(d, db, Expanded(body, tables), point) <==> Holds(d, db, body, point)
    decreases |body|
  {
    hide Holds, IsCategory, TableTokens, Printable, Covered, OneHolds, RangeHolds, Seamless, Clash;
    if body == [] {
    } else if |body| >= 3 && body[1] == "-" {
      NotBeside(body);
      SeamlessTail(body, 3);
      ExpandedHolds(d, db, body[3..], tables, point);
      RangeThenRest(d, db, body[0], body[2], body[3..], point);
      RangeThenRest(d, db, body[0], body[2], Expanded(body[3..], tables), point);
      ExpandedThree(body, tables);
      assert body == [body[0], "-", body[2]] + body[3..];
    } else if |body| == 2 && body[1] == "-" {
      NotBeside(body);
      ExpandedTwo(body, tables);
    } else {
      var rest := body[1..];
      assert body == [body[0]] + rest;
      SeamlessTail(body, 1);
      ExpandedHolds(d, db, rest, tables, point);
      ExpandedFirst(rest, tables);
      OneThenRest(d, db, body[0], rest, point);
      if IsCategory(body[0]) {
        CategoryHolds(d, db, body[0], tables, point);
        TableHolds(d, db, tables[CategoryIn(body[0])], Expanded(rest, tables), point);
      } else {
        OneThenRest(d, db, body[0], Expanded(rest, tables), point);
      }
    }
  }

  lemma {:induction false} CategoryHolds(d: Dialect, db: Database, t: string, tables: Tables, point: nat)
    requires TablesOf(db, tables) && IsCategory(t) && point < POINTS
    ensures CategoryIn(t) in tables && Printable(tables[CategoryIn(t)])
    ensures OneHolds(d, db, t, point) <==> Covered(point, tables[CategoryIn(t)])
    ensures forall i | 0 <= i < |tables[CategoryIn(t)]| :: tables[CategoryIn(t)][i].low <= tables[CategoryIn(t)][i].high
  {
    hide Covered;
  }

  lemma {:induction false} NotBeside(body: seq<string>)
    requires Seamless(body) && |body| >= 2 && body[1] == "-"
    ensures !IsCategory(body[0]) && !IsCategory("-") && (|body| >= 3 ==> !IsCategory(body[2]))
  {
    assert !Clash(body[1 - 1], body[1]);
    if |body| >= 3 {
      assert !Clash(body[2 - 1], body[2]);
    }
  }

  lemma {:induction false} ExpandedTwo(body: seq<string>, tables: Tables)
    requires Filled(tables) && |body| == 2 && !IsCategory(body[0]) && !IsCategory(body[1])
    ensures Expanded(body, tables) == body
  {
    hide IsCategory, Filled;
    assert body == [body[0]] + [body[1]];
    ExpandedSnoc([body[0]], body[1], tables);
    ExpandedOne(body[0], tables);
  }

  lemma {:induction false} ExpandedThree(body: seq<string>, tables: Tables)
    requires Filled(tables) && |body| >= 3 && !IsCategory(body[0]) && !IsCategory(body[1]) && !IsCategory(body[2])
    ensures Expanded(body, tables) == [body[0], body[1], body[2]] + Expanded(body[3..], tables)
  {
    hide IsCategory, Filled;
    var head := [body[0], body[1]];
    assert body == (head + [body[2]]) + body[3..];
    ExpandedAppend(head + [body[2]], body[3..], tables);
    ExpandedSnoc(head, body[2], tables);
    ExpandedTwo(head, tables);
  }

  /** A class and its expansion have the same sign and match the same points. */
  lemma {:induction false} ExpandedMatches(d: Dialect, db: Database, content: seq<string>, tables: Tables, point: nat)
    requires TablesOf(db, tables) && Filled(tables) && Seamless(content) && point < POINTS
    ensures SameElement(d, db, point, Class(content), Class(Expanded(content, tables)))
  {
    hide Holds, TablesOf, Filled, Seamless;
    ExpandedFirst(content, tables);
    ExpandedHolds(d, db, content, tables, point);
    if Negated(content) {
      assert !IsCategory("^");
      SeamlessTail(content, 1);
      ExpandedHolds(d, db, content[1..], tables, point);
      assert Expanded(content, tables)[1..] == Expanded(content[1..], tables);
    }
  }

  // ----- where categories stand -----

  /** The content of the class that is open behind the tokens. */
  function OpenClass(d: Dialect, tokens: seq<string>): Option<seq<string>> {
    Reading(d, tokens).inside
  }

  /** Every category is read inside a class, in ECMAScript a negated one, and touches no dash. */
  ghost predicate Placed(d: Dialect, tokens: seq<string>) {
    tokens == [] ||
    (&& Placed(d, Front(tokens))
     && (IsCategory(Last(tokens)) ==> InsideClass(d, Front(tokens)))
     && (|tokens| >= 2 ==> !Clash(Last(Front(tokens)), Last(tokens))))
  }

  ghost predicate InsideClass(d: Dialect, tokens: seq<string>) {
    && OpenClass(d, tokens).Some?
    && (!d.firstIsMember ==> Negated(OpenClass(d, tokens).value))
  }

  // ----- what was read before and after expanding -----

  ghost predicate Expands(d: Dialect, db: Database, tables: Tables, point: nat, tokens: seq<string>)
    requires Filled(tables)
  {
    var r, s := Reading(d, tokens), Reading(d, Expanded(tokens, tables));
    && SameReading(d, db, point, r, s)
    && (r.inside.Some? ==>
          && Seamless(r.inside.value) && s.inside.value == Expanded(r.inside.value, tables)
          && (r.inside.value != [] ==> tokens != [] && Last(r.inside.value) == Last(tokens)))
  }

  lemma {:induction false} ReadingSnoc(d: Dialect, tokens: seq<string>, t: string)
    ensures Reading(d, tokens + [t]) == ReadToken(d, Reading(d, tokens), t)
  {
    assert Front(tokens + [t]) == tokens;
  }

  /** Tokens that are no brackets join the class that is open. */
  lemma {:induction false} ReadingInert(d: Dialect, tokens: seq<string>, more: seq<string>)
    requires OpenClass(d, tokens).Some?
    requires forall k | 0 <= k < |more| :: more[k] != "[" && more[k] != "]"
    ensures Reading(d, tokens + more) == Reading(d, tokens).(inside := Some(OpenClass(d, tokens).value + more))
    decreases |more|
  {
    hide Reading;
    var content := OpenClass(d, tokens).value;
    if more == [] {
      assert tokens + more == tokens && content + more == content;
    } else {
      ReadingInert(d, tokens, Front(more));
      ReadingSnoc(d, tokens + Front(more), Last(more));
      assert tokens + more == (tokens + Front(more)) + [Last(more)];
      assert content + more == (content + Front(more)) + [Last(more)];
    }
  }

  lemma {:induction false} SeamlessSnoc(content: seq<string>, t: string)
    requires Seamless(content) && (content != [] ==> !Clash(Last(content), t))
    ensures Seamless(content + [t])
  {
    hide Clash;
  }

  lemma {:induction false} PlacedExpands(d: Dialect, db: Database, tables: Tables, point: nat, tokens: seq<string>)
    requires TablesOf(db, tables) && Filled(tables) && Placed(d, tokens) && point < POINTS
    ensures Expands(d, db, tables, point, tokens)
    decreases |tokens|
  {
    hide TablesOf, Filled;
    if tokens == [] {
      hide SameElement;
    } else {
      var front, t := Front(tokens), Last(tokens);
      hide ReadToken, SameElement, Clash, IsCategory, SameReading;
      PlacedExpands(d, db, tables, point, front);
      assert tokens == front + [t];
      ExpandedSnoc(front, t, tables);
      ReadingSnoc(d, front, t);
      if IsCategory(t) {
        CategoryExpands(d, db, tables, point, front, t);
      } else {
        ReadingSnoc(d, Expanded(front, tables), t);
        OtherExpands(d, db, tables, point, front, t);
      }
    }
  }

  lemma {:induction false} CategoryExpands(d: Dialect, db: Database, tables: Tables, point: nat, front: seq<string>, t: string)
    requires Filled(tables) && Expands(d, db, tables, point, front)
    requires IsCategory(t) && OpenClass(d, front).Some? && (front != [] ==> !Clash(Last(front), t))
    ensures Expands(d, db, tables, point, front + [t])
  {
    hide Filled, Reading, Expanded, SameElement, Clash;
    var content := OpenClass(d, front).value;
    var table := TokensFor(t, tables);
    TokensForAreInert(t, tables);
    ReadingInert(d, Expanded(front, tables), table);
    ReadingInert(d, front, [t]);
    ExpandedSnoc(front, t, tables);
    ExpandedSnoc(content, t, tables);
    SeamlessSnoc(content, t);
  }

  lemma {:induction false} TokensForAreInert(t: string, tables: Tables)
    requires Filled(tables) && IsCategory(t)
    ensures t != "[" && t != "]"
    ensures forall k | 0 <= k < |TokensFor(t, tables)| :: TokensFor(t, tables)[k] != "[" && TokensFor(t, tables)[k] != "]"
  {
    TableTokensAreInert(tables[CategoryIn(t)]);
  }

  lemma {:induction false} OtherExpands(d: Dialect, db: Database, tables: Tables, point: nat, front: seq<string>, t: string)
    requires TablesOf(db, tables) && Filled(tables) && Expands(d, db, tables, point, front) && point < POINTS
    requires !IsCategory(t) && (front != [] ==> !Clash(Last(front), t))
    ensures Expands(d, db, tables, point, front + [t])
  {
    hide TablesOf, Filled, Reading, Expanded, SameElement, Clash, Seamless, IsCategory;
    var r, s := Reading(d, front), Reading(d, Expanded(front, tables));
    ExpandedSnoc(front, t, tables);
    ReadingSnoc(d, front, t);
    ReadingSnoc(d, Expanded(front, tables), t);
    if r.inside.None? {
      assert SameElement(d, db, point, Outside(t), Outside(t)) by { OutsideIsItself(d, db, point, t); }
      EmptyExpands(tables);
    } else {
      var content := r.inside.value;
      FirstMember(content, tables);
      ExpandedMatches(d, db, content, tables, point);
      ExpandedSnoc(content, t, tables);
      SeamlessSnoc(content, t);
    }
  }

  lemma {:induction false} OutsideIsItself(d: Dialect, db: Database, point: nat, t: string)
    ensures SameElement(d, db, point, Outside(t), Outside(t))
  {
  }

  lemma {:induction false} EmptyExpands(tables: Tables)
    requires Filled(tables)
    ensures Expanded([], tables) == [] && Seamless([])
  {
  }

  /** Where a `]` can be a member is the same before and after expanding. */
  lemma {:induction false} FirstMember(content: seq<string>, tables: Tables)
    requires Filled(tables)
    ensures content == [] <==> Expanded(content, tables) == []
    ensures content == ["^"] <==> Expanded(content, tables) == ["^"]
  {
    hide Filled;
    ExpandedFirst(content, tables);
    if content != [] && content[0] == "^" {
      assert !IsCategory("^");
      ExpandedFirst(content[1..], tables);
      assert content == ["^"] + content[1..];
      assert Expanded(content, tables) == ["^"] + Expanded(content[1..], tables);
    }
  }

  // ----- the scanner keeps in step with the reader -----

  /** At a boundary of the scan: what the mode says is what has been read. */
  ghost predicate InStep(d: Dialect, p: string, i: nat, m: Mode, tokens: seq<string>) {
    && i <= |p| && Ready(tokens) && Placed(d, tokens)
    && (m.inClass ==> OpenClass(d, tokens).Some?)
    && (!d.firstIsMember ==> m.inClass == OpenClass(d, tokens).Some? && NegatedInStep(p, i, m, OpenClass(d, tokens)))
    && (tokens != [] && Last(tokens) == "-" ==> m.previous == "-")
    && (tokens != [] && IsCategory(Last(tokens)) ==> !StartsWith(p, i, "-"))
  }

  ghost predicate NegatedInStep(p: string, i: nat, m: Mode, open: Option<seq<string>>) {
    m.inClass && m.negated && open.Some? ==> Negated(open.value) || (open.value == [] && StartsWith(p, i, "^"))
  }

  lemma {:induction false} PlacedSnoc(d: Dialect, tokens: seq<string>, t: string)
    ensures Placed(d, tokens + [t]) <==> Placed(d, tokens) && (IsCategory(t) ==> InsideClass(d, tokens))
                                         && (tokens != [] ==> !Clash(Last(tokens), t))
  {
    hide InsideClass, Clash, IsCategory;
    assert Front(tokens + [t]) == tokens;
  }

  /** A character that starts a token. */
  lemma {:induction false} CharKeepsInStep(d: Dialect, p: string, i: nat, m: Mode, tokens: seq<string>)
    requires InStep(d, p, i, m, tokens) && i < |p| && p[i] != '\\' && Pass(p, i, m).Some?
    requires tokens != [] ==> !Continues(d, Last(tokens), p[i])
    ensures InStep(d, p, i + 1, Pass(p, i, m).value, Feed(d, tokens, p[i]))
  {
    hide SetOperator, Continues, Reading, Placed, InsideClass;
    var t := [p[i]];
    PlacedSnoc(d, tokens, t);
    ReadingSnoc(d, tokens, t);
    assert p[i] == '-' ==> StartsWith(p, i, "-");
  }

  /** A character that an escape goes on with. */
  lemma {:induction false} MoreKeepsInStep(d: Dialect, p: string, i: nat, m: Mode, tokens: seq<string>)
    requires InStep(d, p, i, m, tokens) && i < |p| && p[i] != '\\' && Pass(p, i, m).Some?
    requires tokens != [] && Continues(d, Last(tokens), p[i])
    ensures InStep(d, p, i + 1, Pass(p, i, m).value, Feed(d, tokens, p[i]))
  {
    ContinuedIsPlain(d, Last(tokens), p[i]);
    hide SetOperator, Continues, Reading, Placed, InsideClass, Settled;
    var front, t, u := Front(tokens), Last(tokens), Last(tokens) + [p[i]];
    assert tokens == front + [t] && t[0] == '\\' && u[0] == '\\';
    PlacedSnoc(d, front, t);
    PlacedSnoc(d, front, u);
    ReadingSnoc(d, front, t);
    ReadingSnoc(d, front, u);
  }

  lemma {:induction false} EscapeKeepsInStep(d: Dialect, p: string, i: nat, m: Mode, tokens: seq<string>)
    requires InStep(d, p, i, m, tokens) && i + 2 <= |p| && p[i] == '\\' && !PropertyEscape(p, i)
    ensures InStep(d, p, i + 2, m.(previous := p[i..i + 2]), tokens + [p[i..i + 2]])
  {
    hide Continues, Reading, Placed, InsideClass;
    var t := p[i..i + 2];
    assert t[0] == '\\';
    PlacedSnoc(d, tokens, t);
    ReadingSnoc(d, tokens, t);
  }

  lemma {:induction false} EscapeFeeds(d: Dialect, tokens: seq<string>, c: char, rest: string)
    requires Ready(tokens)
    ensures LexOnto(d, tokens, ['\\', c] + rest) == LexOnto(d, tokens + [['\\', c]], rest)
  {
    assert ['\\', c][..1] == ['\\'];
    WholeToken(d, tokens, ['\\', c], rest);
  }

  lemma {:induction false} AtomKeepsInStep(d: Dialect, p: string, i: nat, m: Mode, tokens: seq<string>)
    requires InStep(d, p, i, m, tokens) && AtomAt(p, i, m).Some?
    ensures var a := AtomAt(p, i, m).value;
            InStep(d, p, a.end, m.(previous := p[i..a.end]), tokens + [p[i..a.end]])
  {
    var a := AtomAt(p, i, m).value;
    var t := p[i..a.end];
    assert t[0] == '\\' && p[i] == t[0];
    AtomLexes(d, tokens, a.category, "");
    hide AtomAt, Reading, Placed;
    PlacedSnoc(d, tokens, t);
    ReadingSnoc(d, tokens, t);
  }

  /** Feeding a character to the expanded tokens is expanding the fed tokens. */
  lemma {:induction false} ExpandedFeeds(d: Dialect, tokens: seq<string>, c: char, tables: Tables)
    requires Filled(tables) && Ready(tokens)
    ensures Feed(d, Expanded(tokens, tables), c) == Expanded(Feed(d, tokens, c), tables)
  {
    hide Filled, Continues, Settled, Expanded, TokensFor;
    assert !IsCategory([c]);
    hide IsCategory;
    ExpandedSnoc(tokens, [c], tables);
    PlainFor([c], tables);
    if tokens == [] {
      EmptyExpands(tables);
    } else {
      var front, t := Front(tokens), Last(tokens);
      assert tokens == front + [t];
      ExpandedSnoc(front, t, tables);
      if IsCategory(t) {
        CategoryEnds(d, t, c, tables);
      } else {
        PlainFor(t, tables);
        if Continues(d, t, c) {
          ContinuedIsPlain(d, t, c);
          PlainFor(t + [c], tables);
          ExpandedSnoc(front, t + [c], tables);
          assert Front(Expanded(front, tables) + [t]) == Expanded(front, tables);
        }
      }
    }
  }

  lemma {:induction false} PlainFor(t: string, tables: Tables)
    requires Filled(tables) && !IsCategory(t)
    ensures TokensFor(t, tables) == [t]
  {
  }

  lemma {:induction false} ExpandedIsReady(d: Dialect, tokens: seq<string>, tables: Tables)
    requires Filled(tables) && Ready(tokens)
    ensures Ready(Expanded(tokens, tables))
  {
    hide Filled, Continues, Settled, IsCategory;
    if tokens != [] {
      assert tokens == Front(tokens) + [Last(tokens)];
      ExpandedSnoc(Front(tokens), Last(tokens), tables);
      if IsCategory(Last(tokens)) {
        CategoryEnds(d, Last(tokens), ' ', tables);
      }
    }
  }

  lemma {:induction false} CategoryEnds(d: Dialect, t: string, c: char, tables: Tables)
    requires Filled(tables) && IsCategory(t)
    ensures TokensFor(t, tables) != [] && !Continues(d, t, c) && !Continues(d, Last(TokensFor(t, tables)), c)
    ensures Settled(Last(TokensFor(t, tables)))
  {
    hide Continues;
    AtomLexes(d, [], CategoryIn(t), "");
    if Continues(d, t, c) {
      ContinuedIsPlain(d, t, c);
    }
    TableTokensAreInert(tables[CategoryIn(t)]);
    var point :| Scalar(point) && Last(TokensFor(t, tables)) == CodePoint(point);
    CodePointLexes(d, [], point, "");
  }

  /** From these tokens on, `x` is read with every category placed, and `y` is read as its expansion. */
  ghost predicate Aligned(d: Dialect, tokens: seq<string>, x: string, y: string, tables: Tables)
    requires Filled(tables)
  {
    var after := LexOnto(d, tokens, x);
    Placed(d, after) && LexOnto(d, Expanded(tokens, tables), y) == Expanded(after, tables)
  }

  lemma {:induction false} AlignedChar(d: Dialect, tokens: seq<string>, c: char, x: string, y: string, tables: Tables)
    requires Filled(tables) && Ready(tokens) && Aligned(d, Feed(d, tokens, c), x, y, tables)
    ensures Aligned(d, tokens, [c] + x, [c] + y, tables)
  {
    hide Placed, Filled, Expanded, Feed, Ready;
    ExpandedFeeds(d, tokens, c, tables);
    assert ([c] + x)[1..] == x && ([c] + y)[1..] == y;
  }

  lemma {:induction false} AlignedEscape(d: Dialect, tokens: seq<string>, c: char, x: string, y: string, tables: Tables)
    requires Filled(tables) && Ready(tokens) && Aligned(d, tokens + [['\\', c]], x, y, tables)
    ensures Aligned(d, tokens, ['\\', c] + x, ['\\', c] + y, tables)
  {
    hide Placed, Filled, Expanded, Ready, LexOnto, Feed;
    EscapeFeeds(d, tokens, c, x);
    ExpandedIsReady(d, tokens, tables);
    EscapeFeeds(d, Expanded(tokens, tables), c, y);
    ExpandedSnoc(tokens, ['\\', c], tables);
    assert !IsCategory(['\\', c]);
  }

  lemma {:induction false} AlignedAtom(d: Dialect, tokens: seq<string>, c: string, x: string, y: string, tables: Tables)
    requires Filled(tables) && Ready(tokens) && c in CATEGORIES && Aligned(d, tokens + ["\\p{" + c + "}"], x, y, tables)
    ensures Aligned(d, tokens, "\\p{" + c + "}" + x, TableText(tables[c]) + y, tables)
  {
    hide Placed, Expanded, Ready, LexOnto, Printable, TableText, IsCategory, CategoryIn;
    AtomLexes(d, tokens, c, x);
    ExpandedIsReady(d, tokens, tables);
    TableLexes(d, Expanded(tokens, tables), tables[c], y);
    ExpandedSnoc(tokens, "\\p{" + c + "}", tables);
  }

  /** What is left of the pattern once rewritten. */
  function Rewritten(p: string, i: nat, m: Mode, texts: map<string, string>): string
    requires i <= |p| && Scan(p, i, m).Some? && texts.Keys == CATEGORIES
  {
    ScanFindsAtoms(p, i, m);
    Spliced(p, Scan(p, i, m).value, i, texts)
  }

  lemma {:induction false} RewrittenCopies(p: string, i: nat, m: Mode, j: nat, n: Mode, texts: map<string, string>)
    requires i <= j <= |p| && texts.Keys == CATEGORIES && Scan(p, i, m).Some? && Scan(p, j, n) == Scan(p, i, m)
    ensures Rewritten(p, i, m, texts) == p[i..j] + Rewritten(p, j, n, texts)
  {
    hide Scan, Spliced, AtomsIn;
    ScanFindsAtoms(p, i, m);
    ScanFindsAtoms(p, j, n);
    SplicedFromEarlier(p, Scan(p, i, m).value, i, j, texts);
  }

  lemma {:induction false} RewrittenReplaces(p: string, i: nat, m: Mode, a: Atom, n: Mode, texts: map<string, string>)
    requires a.start == i <= a.end <= |p| && texts.Keys == CATEGORIES && Scan(p, i, m).Some? && Scan(p, a.end, n).Some?
    requires Scan(p, i, m).value == [a] + Scan(p, a.end, n).value && a.category in CATEGORIES
    ensures Rewritten(p, i, m, texts) == texts[a.category] + Rewritten(p, a.end, n, texts)
  {
    hide Scan;
    ScanFindsAtoms(p, i, m);
    assert Scan(p, i, m).value[1..] == Scan(p, a.end, n).value;
    assert p[i..i] == "";
  }

  ghost predicate AlignedAt(d: Dialect, p: string, i: nat, m: Mode, tokens: seq<string>, tables: Tables)
    requires Filled(tables)
  {
    i <= |p| && Scan(p, i, m).Some? && Aligned(d, tokens, p[i..], Rewritten(p, i, m, TextsOf(tables)), tables)
  }

  lemma {:induction false} CharAligned(d: Dialect, p: string, i: nat, m: Mode, n: Mode, tokens: seq<string>, tables: Tables)
    requires Filled(tables) && Ready(tokens) && i < |p| && Scan(p, i, m) == Scan(p, i + 1, n)
    requires AlignedAt(d, p, i + 1, n, Feed(d, tokens, p[i]), tables)
    ensures AlignedAt(d, p, i, m, tokens, tables)
  {
    hide Scan, Aligned, Spliced, Rewritten, Ready, Feed, Printable, TableText;
    var rest := Rewritten(p, i + 1, n, TextsOf(tables));
    RewrittenCopies(p, i, m, i + 1, n, TextsOf(tables));
    AlignedChar(d, tokens, p[i], p[i + 1..], rest, tables);
    assert p[i..i + 1] == [p[i]];
    assert p[i..] == [p[i]] + p[i + 1..];
  }

  lemma {:induction false} EscapeAligned(d: Dialect, p: string, i: nat, m: Mode, n: Mode, tokens: seq<string>, tables: Tables)
    requires Filled(tables) && Ready(tokens) && i + 2 <= |p| && p[i] == '\\' && Scan(p, i, m) == Scan(p, i + 2, n)
    requires AlignedAt(d, p, i + 2, n, tokens + [p[i..i + 2]], tables)
    ensures AlignedAt(d, p, i, m, tokens, tables)
  {
    hide Scan, Aligned, Spliced, Rewritten, Ready, Printable, TableText;
    var rest := Rewritten(p, i + 2, n, TextsOf(tables));
    RewrittenCopies(p, i, m, i + 2, n, TextsOf(tables));
    assert p[i..i + 2] == ['\\', p[i + 1]];
    AlignedEscape(d, tokens, p[i + 1], p[i + 2..], rest, tables);
    assert p[i..] == ['\\', p[i + 1]] + p[i + 2..];
  }

  lemma {:induction false} AtomAligned(d: Dialect, p: string, i: nat, m: Mode, a: Atom, n: Mode, tokens: seq<string>, tables: Tables)
    requires Filled(tables) && Ready(tokens) && a.start == i <= a.end <= |p| && p[i..a.end] == "\\p{" + a.category + "}"
    requires Scan(p, i, m).Some? && Scan(p, a.end, n).Some? && a.category in CATEGORIES
    requires Scan(p, i, m).value == [a] + Scan(p, a.end, n).value
    requires AlignedAt(d, p, a.end, n, tokens + [p[i..a.end]], tables)
    ensures AlignedAt(d, p, i, m, tokens, tables)
  {
    hide Scan, Aligned, Spliced, Rewritten, Ready, Printable, TableText;
    var rest := Rewritten(p, a.end, n, TextsOf(tables));
    RewrittenReplaces(p, i, m, a, n, TextsOf(tables));
    AlignedAtom(d, tokens, a.category, p[a.end..], rest, tables);
    assert p[i..] == p[i..a.end] + p[a.end..];
  }

  lemma {:induction false} ScanInLockstep(d: Dialect, p: string, i: nat, m: Mode, tokens: seq<string>, tables: Tables)
    requires InStep(d, p, i, m, tokens) && Filled(tables) && Scan(p, i, m).Some?
    ensures AlignedAt(d, p, i, m, tokens, tables)
    decreases |p| - i
  {
    BasicsInStep(d, p, i, m, tokens);
    hide InStep, Filled, Pass, AtomAt, AlignedAt, Ready, Continues, Feed;
    if i == |p| {
      ScanEnds(d, p, m, tokens, tables);
    } else if p[i] != '\\' {
      var next := Pass(p, i, m).value;
      if tokens != [] && Continues(d, Last(tokens), p[i]) {
        MoreKeepsInStep(d, p, i, m, tokens);
      } else {
        CharKeepsInStep(d, p, i, m, tokens);
      }
      ScanInLockstep(d, p, i + 1, next, Feed(d, tokens, p[i]), tables);
      CharAligned(d, p, i, m, next, tokens, tables);
    } else if PropertyEscape(p, i) {
      var a := AtomAt(p, i, m).value;
      var next := m.(previous := p[i..a.end]);
      AtomKeepsInStep(d, p, i, m, tokens);
      ScanInLockstep(d, p, a.end, next, tokens + [p[i..a.end]], tables);
      AtomAligned(d, p, i, m, a, next, tokens, tables);
    } else {
      var next := m.(previous := p[i..i + 2]);
      EscapeKeepsInStep(d, p, i, m, tokens);
      ScanInLockstep(d, p, i + 2, next, tokens + [p[i..i + 2]], tables);
      EscapeAligned(d, p, i, m, next, tokens, tables);
    }
  }

  lemma {:induction false} BasicsInStep(d: Dialect, p: string, i: nat, m: Mode, tokens: seq<string>)
    requires InStep(d, p, i, m, tokens)
    ensures i <= |p| && Ready(tokens) && Placed(d, tokens)
  {
  }

  lemma {:induction false} ScanEnds(d: Dialect, p: string, m: Mode, tokens: seq<string>, tables: Tables)
    requires Filled(tables) && Placed(d, tokens) && Scan(p, |p|, m).Some?
    ensures AlignedAt(d, p, |p|, m, tokens, tables)
  {
    hide Placed, Expanded;
    assert p[|p|..] == "";
  }

  // ----- main results -----

  /** Every category escape of a scanned pattern is read, in every dialect, inside a class and beside no dash; where a
      leading `]` closes a class, as for the scanner, the class is a negated one. */
  lemma {:induction false} AtomsAreWellPlaced(d: Dialect, p: string)
    requires Scan(p, 0, START).Some?
    ensures forall k | 0 <= k < |Lex(d, p)| && IsCategory(Lex(d, p)[k]) ::
              && InsideClass(d, Lex(d, p)[..k])
              && (k > 0 ==> Lex(d, p)[k - 1] != "-")
              && (k + 1 < |Lex(d, p)| ==> Lex(d, p)[k + 1] != "-")
  {
    hide Scan, LexOnto, InsideClass, IsCategory;
    var tables := map c | c in CATEGORIES :: [Span(0, 0)];
    StartInStep(d, p);
    ScanInLockstep(d, p, 0, START, [], tables);
    ScanFindsAtoms(p, 0, START);
    assert p[0..] == p;
    forall k | 0 <= k < |Lex(d, p)| && IsCategory(Lex(d, p)[k])
      ensures InsideClass(d, Lex(d, p)[..k])
      ensures k > 0 ==> Lex(d, p)[k - 1] != "-"
      ensures k + 1 < |Lex(d, p)| ==> Lex(d, p)[k + 1] != "-"
    {
      PlacedAt(d, Lex(d, p), k);
      if k + 1 < |Lex(d, p)| {
        PlacedAt(d, Lex(d, p), k + 1);
      }
    }
  }

  lemma {:induction false} StartInStep(d: Dialect, p: string)
    ensures InStep(d, p, 0, START, [])
  {
  }

  lemma {:induction false} PlacedAt(d: Dialect, tokens: seq<string>, k: nat)
    requires Placed(d, tokens) && k < |tokens|
    ensures IsCategory(tokens[k]) ==> InsideClass(d, tokens[..k])
    ensures k > 0 ==> !Clash(tokens[k - 1], tokens[k])
    decreases |tokens|
  {
    hide InsideClass, IsCategory, Clash;
    if k < |tokens| - 1 {
      PlacedAt(d, Front(tokens), k);
      assert Front(tokens)[..k] == tokens[..k];
    } else {
      assert Front(tokens) == tokens[..k];
    }
  }

  /** Every category has a point. */
  ghost predicate Inhabited(db: Database) {
    forall c | c in CATEGORIES :: exists point: nat :: point < POINTS && db(point) == c
  }

  lemma {:induction false} InhabitedFills(db: Database, tables: Tables)
    requires TablesOf(db, tables) && Inhabited(db)
    ensures Filled(tables)
  {
    hide Separate, Printable;
    forall c | c in CATEGORIES ensures tables[c] != [] {
      var point: nat :| point < POINTS && db(point) == c;
      assert Covered(point, tables[c]);
    }
  }

  /** A scanned pattern with its categories spelled out reads, in every dialect, as the same elements: the same text
      outside classes, and classes of the same sign that match the same points. */
  lemma {:induction false} SpellingOutKeepsTheMeaning(d: Dialect, db: Database, p: string, tables: Tables, point: nat)
    requires Scan(p, 0, START).Some? && AtomsIn(p, Scan(p, 0, START).value, 0)
    requires TablesOf(db, tables) && Inhabited(db) && point < POINTS
    ensures var q := Spliced(p, Scan(p, 0, START).value, 0, TextsOf(tables));
            SameReading(d, db, point, Reading(d, Lex(d, p)), Reading(d, Lex(d, q)))
  {
    hide Scan, LexOnto, SameElement, InStep, Spliced, TablesOf, Inhabited;
    InhabitedFills(db, tables);
    StartInStep(d, p);
    ScanInLockstep(d, p, 0, START, [], tables);
    assert p[0..] == p;
    PlacedExpands(d, db, tables, point, Lex(d, p));
  }

  /** Whatever the translation does to a pattern, each of its classes matches exactly the points it matched. */
  lemma {:induction false} ClassesMatchTheSame(d: Dialect, db: Database, p: string, tables: Tables, compiles: Engine, point: nat)
    requires TablesOf(db, tables) && Inhabited(db) && point < POINTS
    ensures SameReading(d, db, point, Reading(d, Lex(d, p)), Reading(d, Lex(d, Translated(p, TextsOf(tables), compiles))))
  {
    hide Scan, Lex, Matches, Spliced, TablesOf, Inhabited, Reading, Contains;
    if Scan(p, 0, START).Some? {
      ScanFindsAtoms(p, 0, START);
      SpellingOutKeepsTheMeaning(d, db, p, tables, point);
    }
  }
}
