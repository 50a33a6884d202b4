/** What a pattern means to a regular-expression dialect, and that translating keeps it. */
module PatternMeaning {
  import opened Common
  import opened CategoryRanges
  import opened SchemaPatterns

  /** What dialects decide for themselves: whether a `]` that comes first in a class is a member (as in Python) or
      closes it (as in ECMAScript), how long the escapes other than `\uXXXX` and `\p{..}` run, and what they mean. */
  datatype Dialect = Dialect(
    firstIsMember: bool,
    more: (string, char) -> bool,
    single: string -> Option<nat>,
    stands: (string, nat) -> bool,
    between: (string, string, nat) -> bool)

  // ----- tokens -----

  /** The characters that escapes of more than two characters are spelled with. */
  predicate Plain(c: char) {
    c as int < 128 && c != '\\' && c != '[' && c != ']' && c != '-'
  }

  predicate AllHex(s: string) {
    forall k | 0 <= k < |s| :: HexValue(s[k]).Some?
  }

  /** The token `t` goes on with the character `c`. */
  predicate Continues(d: Dialect, t: string, c: char) {
    && t != "" && t[0] == '\\'
    && if |t| == 1 then true
       else if t[1] == 'p' || t[1] == 'P' then if |t| == 2 then c == '{' else t[|t| - 1] != '}'
       else if t[1] == 'u' && AllHex(t[2..]) && (|t| == 6 || HexValue(c).Some?) then |t| < 6
       else Plain(c) && d.more(t, c)
  }

  function Last<T>(xs: seq<T>): T
    requires xs != []
  {
    xs[|xs| - 1]
  }

  function Front<T>(xs: seq<T>): seq<T>
    requires xs != []
  {
    xs[..|xs| - 1]
  }

  function Feed(d: Dialect, tokens: seq<string>, c: char): seq<string> {
    if tokens != [] && Continues(d, Last(tokens), c) then Front(tokens) + [Last(tokens) + [c]]
    else tokens + [[c]]
  }

  function LexOnto(d: Dialect, tokens: seq<string>, s: string): seq<string>
    decreases |s|
  {
    if s == "" then tokens else LexOnto(d, Feed(d, tokens, s[0]), s[1..])
  }

  /** The pattern as a list of characters and escapes. */
  function Lex(d: Dialect, s: string): seq<string> {
    LexOnto(d, [], s)
  }

  // ----- classes -----

  datatype Element = Outside(token: string) | Class(content: seq<string>)

  /** What has been read: the elements passed, and the content of the class that is open. */
  datatype Reader = Reader(done: seq<Element>, inside: Option<seq<string>>)

  function ReadToken(d: Dialect, r: Reader, t: string): Reader {
    if r.inside.None? then
      if t == "[" then r.(inside := Some([])) else r.(done := r.done + [Outside(t)])
    else if t == "]" && !(d.firstIsMember && (r.inside.value == [] || r.inside.value == ["^"])) then
      Reader(r.done + [Class(r.inside.value)], None)
    else r.(inside := Some(r.inside.value + [t]))
  }

  function Reading(d: Dialect, tokens: seq<string>): Reader {
    if tokens == [] then Reader([], None)
    else ReadToken(d, Reading(d, Front(tokens)), Last(tokens))
  }

  // ----- the points of a class -----

  function CategoryIn(t: string): string {
    if |t| >= 4 then t[3..|t| - 1] else ""
  }

  predicate IsCategory(t: string) {
    CategoryIn(t) in CATEGORIES && t == "\\p{" + CategoryIn(t) + "}"
  }

  /** The one point a token names: itself, four hexadecimal digits, or whatever the dialect says. */
  function PointOf(d: Dialect, t: string): Option<nat> {
    var r := ReadPoint(t);
    if r.Some? && r.value.1 == "" then Some(r.value.0) else d.single(t)
  }

  predicate OneHolds(d: Dialect, db: Database, t: string, point: nat) {
    if IsCategory(t) then db(point) == CategoryIn(t)
    else if PointOf(d, t).Some? then PointOf(d, t).value == point
    else d.stands(t, point)
  }

  predicate RangeHolds(d: Dialect, t: string, u: string, point: nat) {
    if PointOf(d, t).Some? && PointOf(d, u).Some? then PointOf(d, t).value <= point <= PointOf(d, u).value
    else d.between(t, u, point)
  }

  /** Some member of the class body, a token or a dashed range, stands for the point. */
  predicate Holds(d: Dialect, db: Database, body: seq<string>, point: nat) {
    if body == [] then false
    else if |body| >= 3 && body[1] == "-" then RangeHolds(d, body[0], body[2], point) || Holds(d, db, body[3..], point)
    else OneHolds(d, db, body[0], point) || Holds(d, db, body[1..], point)
  }

  predicate Negated(content: seq<string>) {
    content != [] && content[0] == "^"
  }

  predicate Matches(d: Dialect, db: Database, content: seq<string>, point: nat) {
    if Negated(content) then !Holds(d, db, content[1..], point) else Holds(d, db, content, point)
  }

  predicate SameElement(d: Dialect, db: Database, point: nat, e: Element, f: Element) {
    match e
    case Outside(_) => f == e
    case Class(content) =>
      f.Class? && Negated(f.content) == Negated(content) && Matches(d, db, f.content, point) == Matches(d, db, content, point)
  }

  /** Element by element the same text outside classes, and classes of the same sign that agree on the point. */
  ghost predicate SameReading(d: Dialect, db: Database, point: nat, r: Reader, s: Reader) {
    && r.inside.Some? == s.inside.Some?
    && |r.done| == |s.done|
    && forall k | 0 <= k < |r.done| :: SameElement(d, db, point, r.done[k], s.done[k])
  }

  // ----- nothing of the pattern is lost in reading -----

  function Spelled(tokens: seq<string>): string {
    if tokens == [] then "" else Spelled(Front(tokens)) + Last(tokens)
  }

  function ElementText(e: Element): string {
    match e
    case Outside(token) => token
    case Class(content) => "[" + Spelled(content) + "]"
  }

  function DoneText(done: seq<Element>): string {
    if done == [] then "" else DoneText(Front(done)) + ElementText(Last(done))
  }

  function ReaderText(r: Reader): string {
    DoneText(r.done) + if r.inside.Some? then "[" + Spelled(r.inside.value) else ""
  }

  lemma {:induction false} FeedSpells(d: Dialect, tokens: seq<string>, c: char)
    ensures Spelled(Feed(d, tokens, c)) == Spelled(tokens) + [c]
  {
    hide Continues;
    var after := Feed(d, tokens, c);
    if tokens != [] && Continues(d, Last(tokens), c) {
      assert Front(after) == Front(tokens);
      assert Spelled(Front(tokens)) + (Last(tokens) + [c]) == (Spelled(Front(tokens)) + Last(tokens)) + [c];
    } else {
      assert Front(after) == tokens;
    }
  }

  lemma {:induction false} LexSpells(d: Dialect, tokens: seq<string>, s: string)
    ensures Spelled(LexOnto(d, tokens, s)) == Spelled(tokens) + s
    decreases |s|
  {
    hide Feed, Spelled;
    if s == "" {
      assert Spelled(tokens) + s == Spelled(tokens);
    } else {
      FeedSpells(d, tokens, s[0]);
      LexSpells(d, Feed(d, tokens, s[0]), s[1..]);
      assert Spelled(tokens) + [s[0]] + s[1..] == Spelled(tokens) + s;
    }
  }

  lemma {:induction false} ReadTokenSpells(d: Dialect, r: Reader, t: string)
    ensures ReaderText(ReadToken(d, r, t)) == ReaderText(r) + t
  {
    var after := ReadToken(d, r, t);
    if after.done != r.done {
      assert Front(after.done) == r.done;
    }
    if r.inside.Some? {
      var content := r.inside.value;
      if after.inside.Some? {
        assert Front(content + [t]) == content;
        assert "[" + (Spelled(content) + t) == ("[" + Spelled(content)) + t;
      }
    } else if after.inside.Some? {
      assert "[" + Spelled([]) == t;
    }
  }

  lemma {:induction false} ReadingSpells(d: Dialect, tokens: seq<string>)
    ensures ReaderText(Reading(d, tokens)) == Spelled(tokens)
  {
    hide ReadToken;
    if tokens != [] {
      ReadingSpells(d, Front(tokens));
      ReadTokenSpells(d, Reading(d, Front(tokens)), Last(tokens));
    }
  }

  /** The elements of a reading, in order, spell the pattern. */
  lemma {:induction false} ReadingIsLossless(d: Dialect, p: string)
    ensures ReaderText(Reading(d, Lex(d, p))) == p
  {
    LexSpells(d, [], p);
    ReadingSpells(d, Lex(d, p));
  }
}
