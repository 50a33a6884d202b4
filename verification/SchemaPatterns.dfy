/** Rewriting Unicode category atoms of tool schema patterns into ranges. */
module SchemaPatterns {
  import opened Common
  import opened CategoryRanges

  // ----- the scanner, as a specification -----

  datatype Atom = Atom(start: nat, end: nat, category: string)

  /** What the scanner knows at a token boundary; `previous` is the token it has just passed. */
  datatype Mode = Mode(inClass: bool, negated: bool, previous: string)

  const START := Mode(false, false, "")

  predicate StartsWith(p: string, i: nat, prefix: string) {
    i + |prefix| <= |p| && p[i..i + |prefix|] == prefix
  }

  predicate Contains(p: string, part: string) {
    exists i | 0 <= i <= |p| :: StartsWith(p, i, part)
  }

  function FindFrom(p: string, c: char, i: nat): (r: Option<nat>)
    decreases |p| - i
    ensures r.Some? ==> i <= r.value < |p| && p[r.value] == c && forall k | i <= k < r.value :: p[k] != c
  {
    if i >= |p| then None
    else if p[i] == c then Some(i)
    else FindFrom(p, c, i + 1)
  }

  /** A property escape the scanner is prepared to replace. */
  function AtomAt(p: string, i: nat, m: Mode): (r: Option<Atom>)
    ensures r.Some? ==> && r.value.start == i && i + 4 <= r.value.end <= |p| && r.value.category in CATEGORIES
                        && p[i..r.value.end] == "\\p{" + r.value.category + "}"
                        && m.inClass && m.negated && m.previous != "-" && !StartsWith(p, r.value.end, "-")
  {
    if !StartsWith(p, i, "\\p{") then None
    else
      var close := FindFrom(p, '}', i + 3);
      if close.None? then None
      else
        var category := p[i + 3..close.value];
        if category !in CATEGORIES || !m.inClass || !m.negated || m.previous == "-" || StartsWith(p, close.value + 1, "-") then None
        else
          assert p[i..close.value + 1] == p[i..i + 3] + category + [p[close.value]];
          Some(Atom(i, close.value + 1, category))
  }

  predicate SetOperator(p: string, i: nat) {
    StartsWith(p, i, "&&") || StartsWith(p, i, "--") || StartsWith(p, i, "~~") || StartsWith(p, i, "||")
  }

  predicate PropertyEscape(p: string, i: nat) {
    i + 1 < |p| && p[i] == '\\' && (p[i + 1] == 'p' || p[i + 1] == 'P')
  }

  /** Passing one ordinary character: the new mode, or nothing where the scanner gives up. */
  function Pass(p: string, i: nat, m: Mode): Option<Mode>
    requires i < |p| && p[i] != '\\'
  {
    var c := p[i];
    if c == '[' then
      if m.inClass then
        if StartsWith(p, i, "[\\]]") then Some(m.(previous := "[")) else None
      else Some(Mode(true, StartsWith(p, i + 1, "^"), "["))
    else if c == ']' then
      if m.inClass then Some(Mode(false, m.negated, "]")) else None
    else if m.inClass && SetOperator(p, i) then None
    else Some(m.(previous := [c]))
  }

  /** The atoms of the rest of a pattern, or nothing where some part of it is not supported. */
  function Scan(p: string, i: nat, m: Mode): Option<seq<Atom>>
    requires i <= |p|
    decreases |p| - i
  {
    if i == |p| then if m.inClass then None else Some([])
    else if p[i] == '\\' then
      if i + 1 == |p| then None
      else if PropertyEscape(p, i) then
        var a := AtomAt(p, i, m);
        if a.None? then None
        else
          var rest := Scan(p, a.value.end, m.(previous := p[i..a.value.end]));
          if rest.None? then None else Some([a.value] + rest.value)
      else Scan(p, i + 2, m.(previous := p[i..i + 2]))
    else
      var next := Pass(p, i, m);
      if next.None? then None else Scan(p, i + 1, next.value)
  }

  predicate AtomsIn(p: string, atoms: seq<Atom>, from: nat) {
    && from <= |p|
    && (atoms != [] ==>
          && from <= atoms[0].start && atoms[0].start + 4 <= atoms[0].end <= |p| && atoms[0].category in CATEGORIES
          && p[atoms[0].start..atoms[0].end] == "\\p{" + atoms[0].category + "}"
          && AtomsIn(p, atoms[1..], atoms[0].end))
  }

  /** The pattern with each atom replaced by its category's text. */
  function Spliced(p: string, atoms: seq<Atom>, from: nat, texts: map<string, string>): string
    requires AtomsIn(p, atoms, from) && texts.Keys == CATEGORIES
    decreases |atoms|
  {
    if atoms == [] then p[from..]
    else p[from..atoms[0].start] + texts[atoms[0].category] + Spliced(p, atoms[1..], atoms[0].end, texts)
  }

  type Engine = string -> bool

  /** The rewritten pattern: every atom replaced, or the pattern as it was. */
  function Translated(p: string, texts: map<string, string>, compiles: Engine): string
    requires texts.Keys == CATEGORIES
  {
    if !Contains(p, "\\p{") then p
    else
      var atoms := Scan(p, 0, START);
      if atoms.None? || atoms.value == [] then p
      else
        ScanFindsAtoms(p, 0, START);
        var result := Spliced(p, atoms.value, 0, texts);
        if compiles(result) then result else p
  }

  lemma {:induction false} ScanFindsAtoms(p: string, i: nat, m: Mode)
    requires i <= |p| && Scan(p, i, m).Some?
    ensures AtomsIn(p, Scan(p, i, m).value, i)
    decreases |p| - i
  {
    hide Pass, AtomAt;
    if i < |p| {
      if p[i] != '\\' {
        ScanFindsAtoms(p, i + 1, Pass(p, i, m).value);
        AtomsFromEarlier(p, Scan(p, i, m).value, i + 1, i);
      } else if PropertyEscape(p, i) {
        var a := AtomAt(p, i, m).value;
        ScanFindsAtoms(p, a.end, m.(previous := p[i..a.end]));
        assert Scan(p, i, m).value[1..] == Scan(p, a.end, m.(previous := p[i..a.end])).value;
      } else {
        ScanFindsAtoms(p, i + 2, m.(previous := p[i..i + 2]));
        AtomsFromEarlier(p, Scan(p, i, m).value, i + 2, i);
      }
    }
  }

  lemma {:induction false} AtomsFromEarlier(p: string, atoms: seq<Atom>, from: nat, earlier: nat)
    requires AtomsIn(p, atoms, from) && earlier <= from
    ensures AtomsIn(p, atoms, earlier)
  {
  }

  // ----- the scanner, as it runs -----

  ghost function Prepended(found: seq<Atom>, rest: Option<seq<Atom>>): Option<seq<Atom>> {
    if rest.None? then None else Some(found + rest.value)
  }

  lemma {:induction false} PrependNothing(rest: Option<seq<Atom>>)
    ensures Prepended([], rest) == rest
  {
    assert rest.Some? ==> [] + rest.value == rest.value;
  }

  lemma {:induction false} PrependOne(found: seq<Atom>, a: Atom, rest: Option<seq<Atom>>)
    ensures Prepended(found + [a], rest) == Prepended(found, if rest.None? then None else Some([a] + rest.value))
  {
    assert rest.Some? ==> found + ([a] + rest.value) == (found + [a]) + rest.value;
  }

  /** Scans a pattern for the atoms to replace; nothing where it gives up. */
  method FindAtoms(p: string) returns (found: Option<seq<Atom>>)
    ensures found == Scan(p, 0, START)
  {
    hide StartsWith;
    var replacements: seq<Atom> := [];
    var inClass, negated, previous := false, false, "";
    var index: nat := 0;
    PrependNothing(Scan(p, 0, START));
    while index < |p|
      invariant index <= |p|
      invariant Scan(p, 0, START) == Prepended(replacements, Scan(p, index, Mode(inClass, negated, previous)))
      decreases |p| - index
    {
      var c := p[index];
      if c == '\\' {
        if index + 1 == |p| {
          return None;
        }
        if p[index + 1] == 'p' || p[index + 1] == 'P' {
          var close := FindFrom(p, '}', index + 3);
          if !StartsWith(p, index, "\\p{") || close.None? {
            return None;
          }
          var category, end := p[index + 3..close.value], close.value + 1;
          if category !in CATEGORIES || !inClass || !negated || previous == "-" || StartsWith(p, end, "-") {
            return None;
          }
          PrependOne(replacements, Atom(index, end, category), Scan(p, end, Mode(inClass, negated, p[index..end])));
          replacements := replacements + [Atom(index, end, category)];
          previous := p[index..end];
          index := end;
          continue;
        }
        previous := p[index..index + 2];
        index := index + 2;
        continue;
      }
      if c == '[' {
        if inClass {
          if !StartsWith(p, index, "[\\]]") {
            return None;
          }
        } else {
          inClass := true;
          negated := StartsWith(p, index + 1, "^");
        }
      } else if c == ']' {
        if !inClass {
          return None;
        }
        inClass := false;
      } else if inClass && SetOperator(p, index) {
        return None;
      }
      previous := [c];
      index := index + 1;
    }
    assert replacements + [] == replacements;
    found := if inClass then None else Some(replacements);
  }

  method TranslatePattern(p: string, texts: map<string, string>, compiles: Engine) returns (r: string)
    requires texts.Keys == CATEGORIES
    ensures r == Translated(p, texts, compiles)
  {
    hide Scan, AtomsIn;
    if !Contains(p, "\\p{") {
      return p;
    }
    var atoms := FindAtoms(p);
    if atoms.None? || atoms.value == [] {
      return p;
    }
    ScanFindsAtoms(p, 0, START);
    var translated := Splice(p, atoms.value, texts);
    r := if compiles(translated) then translated else p;
  }

  method Splice(p: string, atoms: seq<Atom>, texts: map<string, string>) returns (r: string)
    requires AtomsIn(p, atoms, 0) && texts.Keys == CATEGORIES
    ensures r == Spliced(p, atoms, 0, texts)
  {
    r := "";
    var offset: nat := 0;
    for n := 0 to |atoms|
      invariant AtomsIn(p, atoms[n..], offset)
      invariant Spliced(p, atoms, 0, texts) == r + Spliced(p, atoms[n..], offset, texts)
    {
      var atom := atoms[n];
      assert atoms[n..][0] == atom && atoms[n..][1..] == atoms[n + 1..];
      assert Spliced(p, atoms[n..], offset, texts)
             == p[offset..atom.start] + texts[atom.category] + Spliced(p, atoms[n + 1..], atom.end, texts);
      r := r + (p[offset..atom.start] + texts[atom.category]);
      offset := atom.end;
    }
    assert atoms[|atoms|..] == [];
    r := r + p[offset..];
  }

  // ----- no property escape is left -----

  /** No token of the text is a property escape. */
  predicate Clean(s: string) {
    if s == "" then true
    else if s[0] == '\\' then |s| >= 2 && s[1] != 'p' && s[1] != 'P' && Clean(s[2..])
    else Clean(s[1..])
  }

  lemma {:induction false} CleanAppend(x: string, y: string)
    requires Clean(x)
    ensures Clean(x + y) == Clean(y)
    decreases |x|
  {
    if x == "" {
      assert x + y == y;
    } else if x[0] == '\\' {
      CleanAppend(x[2..], y);
      assert (x + y)[2..] == x[2..] + y;
    } else {
      CleanAppend(x[1..], y);
      assert (x + y)[1..] == x[1..] + y;
    }
  }

  lemma {:induction false} CodePointIsClean(point: nat)
    requires Scalar(point)
    ensures Clean(CodePoint(point))
  {
    if point <= 0xFFFF {
      var s := CodePoint(point);
      var rest := s[2..];
      assert forall i | 0 <= i < |rest| :: rest[i] != '\\';
      NoEscapeIsClean(rest);
    }
  }

  lemma {:induction false} NoEscapeIsClean(s: string)
    requires forall i | 0 <= i < |s| :: s[i] != '\\'
    ensures Clean(s)
  {
    if s != "" {
      NoEscapeIsClean(s[1..]);
    }
  }

  lemma {:induction false} TableIsClean(spans: seq<Span>)
    requires Printable(spans)
    ensures Clean(TableText(spans))
  {
    hide CodePoint;
    if spans != [] {
      TableIsClean(spans[1..]);
      CodePointIsClean(spans[0].low);
      CodePointIsClean(spans[0].high);
      NoEscapeIsClean("-");
      CleanAppend(CodePoint(spans[0].low), "-");
      CleanAppend(CodePoint(spans[0].low) + "-", CodePoint(spans[0].high));
      CleanAppend(SpanText(spans[0]), TableText(spans[1..]));
    }
  }

  /** Splicing clean texts into a scanned pattern leaves no property escape. */
  lemma {:induction false} SplicedIsClean(p: string, i: nat, m: Mode, texts: map<string, string>)
    requires i <= |p| && Scan(p, i, m).Some? && texts.Keys == CATEGORIES
    requires forall c | c in CATEGORIES :: Clean(texts[c])
    ensures AtomsIn(p, Scan(p, i, m).value, i)
    ensures Clean(Spliced(p, Scan(p, i, m).value, i, texts))
    decreases |p| - i
  {
    hide Pass, AtomAt;
    ScanFindsAtoms(p, i, m);
    if i < |p| {
      if p[i] != '\\' {
        SplicedIsClean(p, i + 1, Pass(p, i, m).value, texts);
        SplicedFromEarlier(p, Scan(p, i, m).value, i, i + 1, texts);
        NoEscapeIsClean(p[i..i + 1]);
        CleanAppend(p[i..i + 1], Spliced(p, Scan(p, i, m).value, i + 1, texts));
      } else if PropertyEscape(p, i) {
        var a := AtomAt(p, i, m).value;
        var rest := m.(previous := p[i..a.end]);
        SplicedIsClean(p, a.end, rest, texts);
        assert Scan(p, i, m).value[1..] == Scan(p, a.end, rest).value;
        CleanAppend(texts[a.category], Spliced(p, Scan(p, a.end, rest).value, a.end, texts));
        assert Spliced(p, Scan(p, i, m).value, i, texts)
               == p[i..i] + texts[a.category] + Spliced(p, Scan(p, a.end, rest).value, a.end, texts);
        assert p[i..i] + texts[a.category] == texts[a.category];
      } else {
        SplicedIsClean(p, i + 2, m.(previous := p[i..i + 2]), texts);
        SplicedFromEarlier(p, Scan(p, i, m).value, i, i + 2, texts);
        EscapeIsClean(p, i);
        CleanAppend(p[i..i + 2], Spliced(p, Scan(p, i, m).value, i + 2, texts));
      }
    } else {
      assert p[i..] == "";
    }
  }

  lemma {:induction false} EscapeIsClean(p: string, i: nat)
    requires i + 1 < |p| && p[i] == '\\' && !PropertyEscape(p, i)
    ensures Clean(p[i..i + 2])
  {
    assert p[i..i + 2][2..] == "";
  }

  lemma {:induction false} SplicedFromEarlier(p: string, atoms: seq<Atom>, earlier: nat, from: nat, texts: map<string, string>)
    requires AtomsIn(p, atoms, from) && AtomsIn(p, atoms, earlier) && earlier <= from && texts.Keys == CATEGORIES
    ensures Spliced(p, atoms, earlier, texts) == p[earlier..from] + Spliced(p, atoms, from, texts)
  {
    if atoms == [] {
      Cut(p, earlier, from, |p|);
    } else {
      var a := atoms[0];
      Cut(p, earlier, from, a.start);
      Regroup(p[earlier..from], p[from..a.start], texts[a.category], Spliced(p, atoms[1..], a.end, texts));
    }
  }

  lemma {:induction false} Cut(p: string, i: nat, j: nat, k: nat)
    requires i <= j <= k <= |p|
    ensures p[i..k] == p[i..j] + p[j..k]
  {
  }

  lemma {:induction false} Regroup(a: string, b: string, c: string, d: string)
    ensures (a + b) + c + d == a + (b + c + d)
  {
  }

  /** A scanned pattern with atoms is not clean. */
  lemma {:induction false} AtomsAreNotClean(p: string, i: nat, m: Mode)
    requires i <= |p| && Scan(p, i, m).Some? && Scan(p, i, m).value != []
    ensures !Clean(p[i..])
    decreases |p| - i
  {
    hide Pass, AtomAt;
    if p[i] != '\\' {
      AtomsAreNotClean(p, i + 1, Pass(p, i, m).value);
      assert p[i..][1..] == p[i + 1..];
    } else if !PropertyEscape(p, i) {
      AtomsAreNotClean(p, i + 2, m.(previous := p[i..i + 2]));
      assert p[i..][2..] == p[i + 2..];
    }
  }

  /** A clean pattern has nothing to replace. */
  lemma {:induction false} CleanHasNoAtoms(p: string, i: nat, m: Mode)
    requires i <= |p| && Clean(p[i..])
    ensures Scan(p, i, m).None? || Scan(p, i, m) == Some([])
  {
    if Scan(p, i, m).Some? && Scan(p, i, m).value != [] {
      AtomsAreNotClean(p, i, m);
    }
  }

  // ----- main results on patterns -----

  ghost predicate CleanTexts(texts: map<string, string>) {
    texts.Keys == CATEGORIES && forall c | c in CATEGORIES :: Clean(texts[c])
  }

  /** Either nothing changes, or every property escape is gone; which, depends on the scan and the engine alone. */
  lemma {:induction false} AllOrNothing(p: string, texts: map<string, string>, compiles: Engine)
    requires CleanTexts(texts)
    ensures var r := Translated(p, texts, compiles);
            && (r != p ==> Clean(r) && !Clean(p))
            && (r != p <==> Scan(p, 0, START).Some? && Scan(p, 0, START).value != [] && RewriteCompiles(p, texts, compiles))
  {
    hide Scan, AtomsIn, Spliced, Contains;
    if Scan(p, 0, START).Some? && Scan(p, 0, START).value != [] {
      ScanFindsAtoms(p, 0, START);
      SplicedIsClean(p, 0, START, texts);
      AtomsAreNotClean(p, 0, START);
      assert p[0..] == p;
      AtomIsContained(p, Scan(p, 0, START).value, 0);
    }
  }

  ghost predicate RewriteCompiles(p: string, texts: map<string, string>, compiles: Engine)
    requires texts.Keys == CATEGORIES
  {
    var atoms := Scan(p, 0, START);
    atoms.Some? && AtomsIn(p, atoms.value, 0) && compiles(Spliced(p, atoms.value, 0, texts))
  }

  lemma {:induction false} AtomIsContained(p: string, atoms: seq<Atom>, from: nat)
    requires AtomsIn(p, atoms, from) && atoms != []
    ensures Contains(p, "\\p{")
  {
    var a := atoms[0];
    assert p[a.start..a.start + 3] == p[a.start..a.end][..3] == "\\p{";
    assert StartsWith(p, a.start, "\\p{");
  }

  /** Translating a translated pattern changes nothing. */
  lemma {:induction false} TranslatingTwiceIsTranslatingOnce(p: string, texts: map<string, string>, compiles: Engine)
    requires CleanTexts(texts)
    ensures Translated(Translated(p, texts, compiles), texts, compiles) == Translated(p, texts, compiles)
  {
    hide Scan, AtomsIn, Spliced, Contains, Clean;
    var r := Translated(p, texts, compiles);
    AllOrNothing(p, texts, compiles);
    if r != p {
      assert r[0..] == r;
      CleanHasNoAtoms(r, 0, START);
      AllOrNothing(r, texts, compiles);
    }
  }

  // ----- the texts spliced in -----

  ghost predicate TablesOf(db: Database, tables: map<string, seq<Span>>) {
    && tables.Keys == CATEGORIES
    && forall c | c in CATEGORIES :: Tabulates(db, c, tables[c], POINTS) && Printable(tables[c])
  }

  function TextsOf(tables: map<string, seq<Span>>): map<string, string>
    requires tables.Keys == CATEGORIES && forall c | c in CATEGORIES :: Printable(tables[c])
  {
    map c | c in CATEGORIES :: TableText(tables[c])
  }

  lemma {:induction false} TableTextsAreClean(tables: map<string, seq<Span>>)
    requires tables.Keys == CATEGORIES && forall c | c in CATEGORIES :: Printable(tables[c])
    ensures CleanTexts(TextsOf(tables))
  {
    forall c | c in CATEGORIES ensures Clean(TextsOf(tables)[c]) {
      TableIsClean(tables[c]);
    }
  }

  /** The texts of the four tables, built in one pass over the database. */
  method RangeTexts(db: Database) returns (texts: map<string, string>, ghost tables: map<string, seq<Span>>)
    requires SurrogatesApart(db)
    ensures TablesOf(db, tables) && texts == TextsOf(tables) && CleanTexts(texts)
  {
    hide Tabulates, Printable, Clean;
    var ranges := CategorySpans(db);
    tables := ranges;
    forall c | c in CATEGORIES ensures Printable(tables[c]) {
      TablesArePrintable(db, c, tables[c]);
    }
    TableTextsAreClean(tables);
    texts := map c | c in CATEGORIES :: TableText(ranges[c]);
  }
}
