/** Patterns the scanner does not give up on. */
module PatternAcceptance {
  import opened Common
  import opened CategoryRanges
  import opened SchemaPatterns

  /** A piece of a class body, or of the text between classes: a character, an escape of two characters, a category escape. */
  datatype Piece = Lit(c: char) | Esc(c: char) | Cat(name: string)

  /** A pattern of text and negated classes; a class may end with both brackets as members, as `[\\]`. */
  datatype Part = Out(piece: Piece) | Neg(body: seq<Piece>, brackets: bool)

  function PieceText(piece: Piece): string {
    match piece
    case Lit(c) => [c]
    case Esc(c) => ['\\', c]
    case Cat(name) => "\\p{" + name + "}"
  }

  function BodyText(body: seq<Piece>): string {
    if body == [] then "" else PieceText(body[0]) + BodyText(body[1..])
  }

  function PartText(part: Part): string {
    match part
    case Out(piece) => PieceText(piece)
    case Neg(body, brackets) => "[^" + BodyText(body) + End(brackets)
  }

  function End(brackets: bool): string {
    if brackets then "[\\]]" else "]"
  }

  function Text(parts: seq<Part>): string {
    if parts == [] then "" else PartText(parts[0]) + Text(parts[1..])
  }

  /** No bracket or backslash stands for itself, and no property escape is anything but one of the four categories. */
  predicate Sound(piece: Piece) {
    match piece
    case Lit(c) => c != '[' && c != ']' && c != '\\'
    case Esc(c) => c != 'p' && c != 'P'
    case Cat(name) => name in CATEGORIES
  }

  predicate Operator(piece: Piece) {
    piece == Lit('&') || piece == Lit('-') || piece == Lit('~') || piece == Lit('|')
  }

  /** Two pieces that may not stand side by side in a class: a set operator, or a dash and a category. */
  predicate Clash(a: Piece, b: Piece) {
    || (a == b && Operator(a))
    || (a.Cat? && b == Lit('-')) || (a == Lit('-') && b.Cat?)
  }

  predicate SoundBody(body: seq<Piece>) {
    body == [] || (Sound(body[0]) && (|body| > 1 ==> !Clash(body[0], body[1])) && SoundBody(body[1..]))
  }

  predicate SoundPart(part: Part) {
    match part
    case Out(piece) => Sound(piece) && !piece.Cat?
    case Neg(body, _) => SoundBody(body)
  }

  function Categories(body: seq<Piece>): seq<string> {
    if body == [] then [] else (if body[0].Cat? then [body[0].name] else []) + Categories(body[1..])
  }

  function AllCategories(parts: seq<Part>): seq<string> {
    if parts == [] then [] else (if parts[0].Neg? then Categories(parts[0].body) else []) + AllCategories(parts[1..])
  }

  function Names(atoms: seq<Atom>): (r: seq<string>)
    ensures |r| == |atoms| && forall i | 0 <= i < |r| :: r[i] == atoms[i].category
  {
    seq(|atoms|, i requires 0 <= i < |atoms| => atoms[i].category)
  }

  /** The scan from `i` finds these categories and goes on as the scan from `j`. */
  ghost predicate Finds(p: string, i: nat, m: Mode, names: seq<string>, j: nat, n: Mode)
    requires i <= |p| && j <= |p|
  {
    && (Scan(p, i, m).Some? <==> Scan(p, j, n).Some?)
    && (Scan(p, j, n).Some? ==> Names(Scan(p, i, m).value) == names + Names(Scan(p, j, n).value))
  }

  lemma {:induction false} FindsMore(p: string, i: nat, m: Mode, xs: seq<string>, j: nat, n: Mode, ys: seq<string>, k: nat, o: Mode)
    requires i <= |p| && j <= |p| && k <= |p| && Finds(p, i, m, xs, j, n) && Finds(p, j, n, ys, k, o)
    ensures Finds(p, i, m, xs + ys, k, o)
  {
    hide Scan, Names;
    if Scan(p, k, o).Some? {
      assert xs + (ys + Names(Scan(p, k, o).value)) == (xs + ys) + Names(Scan(p, k, o).value);
    }
  }

  /** What the mode is behind a piece. */
  function Behind(m: Mode, piece: Piece): Mode {
    m.(previous := PieceText(piece))
  }

  /** Inside a negated class a sound piece is passed, and a category found, unless it clashes with what comes before or after. */
  lemma {:induction false} PieceScans(p: string, i: nat, m: Mode, piece: Piece, rest: string)
    requires i <= |p| && p[i..] == PieceText(piece) + rest && Sound(piece)
    requires m.inClass ==> m.negated && rest != "" && (piece.Cat? ==> m.previous != "-" && rest[0] != '-')
    requires m.inClass && Operator(piece) ==> rest[0] != piece.c
    requires !m.inClass ==> !piece.Cat?
    ensures i + |PieceText(piece)| <= |p| && p[i + |PieceText(piece)|..] == rest
    ensures Finds(p, i, m, if piece.Cat? then [piece.name] else [], i + |PieceText(piece)|, Behind(m, piece))
  {
    var text, j := PieceText(piece), i + |PieceText(piece)|;
    assert |p| == i + |text| + |rest|;
    assert p[i..][..|text|] == text && p[i..][|text|..] == rest;
    assert p[i..j] == text && p[j..] == rest;
    assert forall k | 0 <= k < |text| :: p[i + k] == text[k];
    assert rest != "" ==> p[j] == rest[0];
    match piece {
      case Lit(c) => LitScans(p, i, m, c);
      case Esc(c) => EscScans(p, i, m, c);
      case Cat(name) => CatScans(p, i, m, name);
    }
  }

  lemma {:induction false} OperatorsAreDoubled(p: string, i: nat)
    requires i < |p|
    ensures SetOperator(p, i) ==> i + 1 < |p| && p[i + 1] == p[i] && Operator(Lit(p[i]))
  {
    if i + 2 <= |p| {
      assert p[i..i + 2] == [p[i], p[i + 1]];
    }
  }

  lemma {:induction false} LitScans(p: string, i: nat, m: Mode, c: char)
    requires i < |p| && p[i] == c && Sound(Lit(c))
    requires m.inClass && Operator(Lit(c)) ==> i + 1 < |p| && p[i + 1] != c
    ensures Finds(p, i, m, [], i + 1, m.(previous := [c]))
  {
    var n := m.(previous := [c]);
    OperatorsAreDoubled(p, i);
    assert Pass(p, i, m) == Some(n);
    if Scan(p, i + 1, n).Some? {
      assert [] + Names(Scan(p, i + 1, n).value) == Names(Scan(p, i + 1, n).value);
    }
  }

  lemma {:induction false} EscScans(p: string, i: nat, m: Mode, c: char)
    requires i + 2 <= |p| && p[i] == '\\' && p[i + 1] == c && Sound(Esc(c))
    ensures Finds(p, i, m, [], i + 2, m.(previous := ['\\', c]))
  {
    var n := m.(previous := ['\\', c]);
    assert p[i..i + 2] == ['\\', c];
    if Scan(p, i + 2, n).Some? {
      assert [] + Names(Scan(p, i + 2, n).value) == Names(Scan(p, i + 2, n).value);
    }
  }

  lemma {:induction false} FindsBrace(p: string, i: nat, j: nat)
    requires i <= j < |p| && p[j] == '}' && forall k | i <= k < j :: p[k] != '}'
    ensures FindFrom(p, '}', i) == Some(j)
    decreases j - i
  {
    if i < j {
      FindsBrace(p, i + 1, j);
    }
  }

  lemma {:induction false} CatScans(p: string, i: nat, m: Mode, name: string)
    requires name in CATEGORIES && i + 6 < |p| && p[i..i + 6] == "\\p{" + name + "}" && p[i + 6] != '-'
    requires m.inClass && m.negated && m.previous != "-"
    ensures Finds(p, i, m, [name], i + 6, m.(previous := "\\p{" + name + "}"))
  {
    var text := "\\p{" + name + "}";
    assert |text| == 6;
    assert forall k | 0 <= k < 6 :: p[i + k] == text[k];
    assert p[i..i + 3] == p[i..i + 6][..3] && p[i + 3..i + 5] == p[i..i + 6][3..5];
    assert text[..3] == "\\p{" && text[3..5] == name;
    FindsBrace(p, i + 3, i + 5);
    assert !StartsWith(p, i + 6, "-") by {
      assert p[i + 6..i + 7][0] == p[i + 6];
    }
    assert AtomAt(p, i, m) == Some(Atom(i, i + 6, name));
    var n := m.(previous := text);
    hide AtomAt;
    if Scan(p, i + 6, n).Some? {
      var rest := Scan(p, i + 6, n).value;
      assert Names([Atom(i, i + 6, name)] + rest) == [name] + Names(rest);
    }
  }

  /** The body of a negated class, up to and with the bracket that closes it. */
  lemma {:induction false} BodyScans(p: string, i: nat, m: Mode, body: seq<Piece>, brackets: bool, rest: string)
    requires i <= |p| && p[i..] == BodyText(body) + End(brackets) + rest && SoundBody(body) && m.inClass && m.negated
    requires body != [] && body[0].Cat? ==> m.previous != "-"
    ensures var j := i + |BodyText(body)| + |End(brackets)|;
            j <= |p| && p[j..] == rest && Finds(p, i, m, Categories(body), j, Mode(false, true, "]"))
    decreases |body|
  {
    hide Finds, PieceText, End;
    if body == [] {
      assert p[i..] == End(brackets) + rest;
      EndScans(p, i, m, brackets, rest);
    } else {
      var piece, more := body[0], body[1..];
      var after := BodyText(more) + End(brackets) + rest;
      assert BodyText(body) + End(brackets) + rest == PieceText(piece) + after;
      FirstOfBody(more, brackets, rest);
      NextOf(piece, more);
      PieceScans(p, i, m, piece, after);
      var j := i + |PieceText(piece)|;
      BehindPiece(m, piece);
      BodyScans(p, j, Behind(m, piece), more, brackets, rest);
      FindsMore(p, i, m, if piece.Cat? then [piece.name] else [], j, Behind(m, piece),
                Categories(more), j + |BodyText(more)| + |End(brackets)|, Mode(false, true, "]"));
    }
  }

  lemma {:induction false} EndScans(p: string, i: nat, m: Mode, brackets: bool, rest: string)
    requires i <= |p| && p[i..] == End(brackets) + rest && m.inClass && m.negated
    ensures var j := i + |End(brackets)|; j <= |p| && p[j..] == rest && Finds(p, i, m, [], j, Mode(false, true, "]"))
  {
    hide Finds;
    var end := End(brackets);
    assert |p| == i + |end| + |rest| && p[i..][|end|..] == rest;
    assert forall k | 0 <= k < |end| :: p[i + k] == p[i..][k] == end[k];
    if brackets {
      assert p[i..i + 4] == end;
      BracketScans(p, i, m);
      var n := m.(previous := "[");
      EscScans(p, i + 1, n, ']');
      var o := n.(previous := ['\\', ']']);
      FindsMore(p, i, m, [], i + 1, n, [], i + 3, o);
      ClosingScans(p, i + 3, o);
      var none: seq<string> := [];
      assert none + none == none;
      FindsMore(p, i, m, [], i + 3, o, [], i + 4, Mode(false, true, "]"));
    } else {
      ClosingScans(p, i, m);
    }
  }

  lemma {:induction false} BracketScans(p: string, i: nat, m: Mode)
    requires i + 4 <= |p| && p[i..i + 4] == "[\\]]" && m.inClass
    ensures Finds(p, i, m, [], i + 1, m.(previous := "["))
  {
    var n := m.(previous := "[");
    assert p[i] == p[i..i + 4][0] == '[';
    assert Pass(p, i, m) == Some(n);
    if Scan(p, i + 1, n).Some? {
      assert [] + Names(Scan(p, i + 1, n).value) == Names(Scan(p, i + 1, n).value);
    }
  }

  lemma {:induction false} ClosingScans(p: string, i: nat, m: Mode)
    requires i < |p| && p[i] == ']' && m.inClass && m.negated
    ensures Finds(p, i, m, [], i + 1, Mode(false, true, "]"))
  {
    var n := Mode(false, true, "]");
    if Scan(p, i + 1, n).Some? {
      assert [] + Names(Scan(p, i + 1, n).value) == Names(Scan(p, i + 1, n).value);
    }
  }

  /** What a body begins with, closing bracket included. */
  lemma {:induction false} FirstOfBody(body: seq<Piece>, brackets: bool, rest: string)
    ensures BodyText(body) + End(brackets) + rest != ""
    ensures var first := (BodyText(body) + End(brackets) + rest)[0];
            if body == [] then first == ']' || first == '[' else first == PieceText(body[0])[0]
  {
  }

  lemma {:induction false} NextOf(piece: Piece, more: seq<Piece>)
    requires Sound(piece) && SoundBody(more) && (more != [] ==> !Clash(piece, more[0]))
    ensures Operator(piece) ==> piece.c != ']' && piece.c != '['
    ensures more != [] ==> var next := PieceText(more[0])[0]; (piece.Cat? ==> next != '-') && (Operator(piece) ==> next != piece.c)
  {
  }

  lemma {:induction false} BehindPiece(m: Mode, piece: Piece)
    ensures Behind(m, piece).inClass == m.inClass && Behind(m, piece).negated == m.negated
    ensures Behind(m, piece).previous == "-" <==> piece == Lit('-')
  {
    if piece.Cat? {
      assert |PieceText(piece)| > 1;
    }
  }

  lemma {:induction false} OpeningScans(p: string, i: nat, m: Mode)
    requires i + 2 <= |p| && p[i] == '[' && p[i + 1] == '^' && !m.inClass
    ensures Finds(p, i, m, [], i + 2, Mode(true, true, "^"))
  {
    var n, o := Mode(true, true, "["), Mode(true, true, "^");
    assert p[i + 1..i + 2] == "^";
    assert Pass(p, i, m) == Some(n);
    OperatorsAreDoubled(p, i + 1);
    assert Pass(p, i + 1, n) == Some(o);
    if Scan(p, i + 2, o).Some? {
      assert [] + Names(Scan(p, i + 2, o).value) == Names(Scan(p, i + 2, o).value);
    }
  }

  /** A whole class, with its opening. */
  lemma {:induction false} ClassScans(p: string, i: nat, m: Mode, body: seq<Piece>, brackets: bool, rest: string)
    requires i <= |p| && p[i..] == "[^" + (BodyText(body) + End(brackets) + rest) && SoundBody(body) && !m.inClass
    ensures var j := i + 2 + |BodyText(body)| + |End(brackets)|;
            j <= |p| && p[j..] == rest && Finds(p, i, m, Categories(body), j, Mode(false, true, "]"))
  {
    hide Finds, BodyText, End, SoundBody, Categories;
    var inner := BodyText(body) + End(brackets) + rest;
    assert p[i] == p[i..][0] == '[' && p[i + 1] == p[i..][1] == '^' && p[i + 2..] == p[i..][2..] == inner;
    OpeningScans(p, i, m);
    BodyScans(p, i + 2, Mode(true, true, "^"), body, brackets, rest);
    FindsMore(p, i, m, [], i + 2, Mode(true, true, "^"), Categories(body), i + 2 + |BodyText(body)| + |End(brackets)|, Mode(false, true, "]"));
    assert [] + Categories(body) == Categories(body);
  }

  lemma {:induction false} PartScans(p: string, i: nat, m: Mode, part: Part, rest: string) returns (n: Mode)
    requires i <= |p| && p[i..] == PartText(part) + rest && SoundPart(part) && !m.inClass
    ensures i + |PartText(part)| <= |p| && p[i + |PartText(part)|..] == rest
    ensures !n.inClass && Finds(p, i, m, if part.Neg? then Categories(part.body) else [], i + |PartText(part)|, n)
  {
    hide Finds, BodyText, End, SoundBody, Categories;
    match part {
      case Out(piece) =>
        PieceScans(p, i, m, piece, rest);
        n := Behind(m, piece);
      case Neg(body, brackets) =>
        assert PartText(part) + rest == "[^" + (BodyText(body) + End(brackets) + rest);
        ClassScans(p, i, m, body, brackets, rest);
        n := Mode(false, true, "]");
    }
  }

  lemma {:induction false} PartsScan(p: string, i: nat, m: Mode, parts: seq<Part>)
    requires i <= |p| && p[i..] == Text(parts) && !m.inClass && forall k | 0 <= k < |parts| :: SoundPart(parts[k])
    ensures Scan(p, i, m).Some? && Names(Scan(p, i, m).value) == AllCategories(parts)
    decreases |parts|
  {
    hide PartText;
    if parts == [] {
      assert i == |p|;
      assert Names([]) == [];
    } else {
      var n := PartScans(p, i, m, parts[0], Text(parts[1..]));
      var found := if parts[0].Neg? then Categories(parts[0].body) else [];
      var j := i + |PartText(parts[0])|;
      PartsScan(p, j, n, parts[1..]);
    }
  }

  /** Every pattern made of plain text, escapes and negated classes of plain members and categories, with no dash beside a category
      and no set operator, and with the brackets themselves at most at the end of a class, is scanned, and exactly its categories are found, in order. */
  lemma {:induction false} PlainPatternsAreScanned(parts: seq<Part>)
    requires forall k | 0 <= k < |parts| :: SoundPart(parts[k])
    ensures Scan(Text(parts), 0, START).Some? && Names(Scan(Text(parts), 0, START).value) == AllCategories(parts)
  {
    assert Text(parts)[0..] == Text(parts);
    PartsScan(Text(parts), 0, START, parts);
  }

  /** Such a pattern is rewritten, with no property escape left, if it has a category and the engine takes the result. */
  lemma {:induction false} PlainPatternsAreTranslated(parts: seq<Part>, texts: map<string, string>, compiles: Engine)
    requires CleanTexts(texts) && (forall k | 0 <= k < |parts| :: SoundPart(parts[k]))
    ensures var p := Text(parts);
            Translated(p, texts, compiles) != p <==> AllCategories(parts) != [] && RewriteCompiles(p, texts, compiles)
    ensures var p := Text(parts);
            AllCategories(parts) != [] && RewriteCompiles(p, texts, compiles) ==> Clean(Translated(p, texts, compiles))
  {
    hide Scan, Translated, Clean, RewriteCompiles, CleanTexts;
    PlainPatternsAreScanned(parts);
    assert CleanTexts(texts) ==> texts.Keys == CATEGORIES by { TextsOfCategories(texts); }
    AllOrNothing(Text(parts), texts, compiles);
  }

  lemma {:induction false} TextsOfCategories(texts: map<string, string>)
    ensures CleanTexts(texts) ==> texts.Keys == CATEGORIES
  {
  }
}
