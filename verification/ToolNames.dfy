/** Reversible tool names: portable names pass unchanged, every other name gets an alias. */
module ToolNames {

  const MAX_LENGTH := 64
  const DIGEST_LENGTH := 16
  const MAX_READABLE := MAX_LENGTH - DIGEST_LENGTH - 1

  // ----- names -----

  predicate PortableChar(c: char) {
    'A' <= c <= 'Z' || 'a' <= c <= 'z' || '0' <= c <= '9' || c == '_' || c == '-'
  }

  predicate PortableText(s: string) {
    forall i | 0 <= i < |s| :: PortableChar(s[i])
  }

  predicate Portable(name: string) {
    1 <= |name| <= MAX_LENGTH && PortableText(name)
  }

  predicate Edge(c: char) {
    c == '_' || c == '-'
  }

  /** Drops the leading characters that are not portable. */
  function SkipInvalid(s: string): (r: string)
    ensures |r| <= |s|
  {
    if s != "" && !PortableChar(s[0]) then SkipInvalid(s[1..]) else s
  }

  /** Each run of characters that are not portable becomes one underscore. */
  function Collapsed(s: string): (r: string)
    decreases |s|
    ensures PortableText(r)
  {
    if s == "" then ""
    else if PortableChar(s[0]) then [s[0]] + Collapsed(s[1..])
    else "_" + Collapsed(SkipInvalid(s[1..]))
  }

  function StripLeft(s: string): (r: string)
    ensures PortableText(s) ==> PortableText(r)
    ensures r != "" ==> !Edge(r[0])
    ensures s != "" && !Edge(s[0]) ==> r == s
  {
    if s != "" && Edge(s[0]) then StripLeft(s[1..]) else s
  }

  function StripRight(s: string): (r: string)
    ensures |r| <= |s| && (PortableText(s) ==> PortableText(r))
    ensures r <= s && (r != "" ==> !Edge(r[|r| - 1]))
    ensures s != "" && !Edge(s[|s| - 1]) ==> r == s
    ensures s != "" && !Edge(s[0]) ==> r != ""
  {
    if s != "" && Edge(s[|s| - 1]) then StripRight(s[..|s| - 1]) else s
  }

  function OrTool(s: string): string {
    if s == "" then "tool" else s
  }

  function Taken(s: string, n: nat): string {
    if |s| <= n then s else s[..n]
  }

  function ReadablePart(name: string): (r: string)
    ensures 1 <= |r| <= MAX_READABLE && PortableText(r) && !Edge(r[0]) && !Edge(r[|r| - 1])
  {
    var whole := OrTool(StripRight(StripLeft(Collapsed(name))));
    OrTool(StripRight(Taken(whole, MAX_READABLE)))
  }

  lemma {:induction false} PortableIsKept(s: string)
    requires PortableText(s)
    ensures Collapsed(s) == s
  {
    if s != "" {
      PortableIsKept(s[1..]);
      assert s == [s[0]] + s[1..];
    }
  }

  // ----- what an alias shows of its name -----

  /** The letters and digits of a text, in order. */
  function Letters(s: string): string {
    if s == "" then "" else Shown(s[0]) + Letters(s[1..])
  }

  function Shown(c: char): string {
    if PortableChar(c) && !Edge(c) then [c] else ""
  }

  lemma {:induction false} LettersAppend(x: string, y: string)
    ensures Letters(x + y) == Letters(x) + Letters(y)
  {
    hide PortableChar, Edge;
    if x == "" {
      assert x + y == y;
    } else {
      LettersAppend(x[1..], y);
      assert (x + y)[1..] == x[1..] + y && (x + y)[0] == x[0];
      var first := Shown(x[0]);
      assert Letters(x + y) == first + (Letters(x[1..]) + Letters(y)) == (first + Letters(x[1..])) + Letters(y);
    }
  }

  lemma {:induction false} SkippingKeepsLetters(s: string)
    ensures Letters(SkipInvalid(s)) == Letters(s)
  {
    if s != "" && !PortableChar(s[0]) {
      SkippingKeepsLetters(s[1..]);
    }
  }

  lemma {:induction false} CollapsingKeepsLetters(s: string)
    ensures Letters(Collapsed(s)) == Letters(s)
    decreases |s|
  {
    if s != "" {
      if PortableChar(s[0]) {
        CollapsingKeepsLetters(s[1..]);
        assert ([s[0]] + Collapsed(s[1..]))[1..] == Collapsed(s[1..]);
      } else {
        var rest := SkipInvalid(s[1..]);
        CollapsingKeepsLetters(rest);
        SkippingKeepsLetters(s[1..]);
        assert ("_" + Collapsed(rest))[1..] == Collapsed(rest);
      }
    }
  }

  lemma {:induction false} StrippingKeepsLetters(s: string)
    ensures Letters(StripLeft(s)) == Letters(s)
    decreases |s|
  {
    if s != "" && Edge(s[0]) {
      StrippingKeepsLetters(s[1..]);
    }
  }

  lemma {:induction false} StrippingTheEndKeepsLetters(s: string)
    ensures Letters(StripRight(s)) == Letters(s)
    decreases |s|
  {
    if s != "" && Edge(s[|s| - 1]) {
      var front, last := s[..|s| - 1], s[|s| - 1..];
      StrippingTheEndKeepsLetters(front);
      LettersAppend(front, last);
      assert s == front + last && last[1..] == "" && Letters(last) == "";
    }
  }

  /** Stripped at both ends, nothing is left exactly when there are no letters. */
  lemma {:induction false} NoLettersMeansNothing(s: string)
    requires PortableText(s) && (s != "" ==> !Edge(s[0]))
    ensures Letters(s) == "" <==> s == ""
  {
  }

  /** The readable part of an alias shows the letters and digits of its name, in order, cut to length; without any it is `tool`. */
  lemma {:induction false} AliasesShowTheirNames(name: string)
    ensures Letters(name) == "" ==> ReadablePart(name) == "tool"
    ensures Letters(name) != "" ==> Letters(ReadablePart(name)) != "" && Letters(ReadablePart(name)) <= Letters(name)
    ensures Letters(name) != "" && |Collapsed(name)| <= MAX_READABLE ==> Letters(ReadablePart(name)) == Letters(name)
  {
    var left := StripLeft(Collapsed(name));
    var stripped := StripRight(left);
    CollapsingKeepsLetters(name);
    StrippingKeepsLetters(Collapsed(name));
    StrippingTheEndKeepsLetters(left);
    assert stripped != "" ==> stripped[0] == left[0];
    NoLettersMeansNothing(stripped);
    if stripped != "" {
      var cut := Taken(stripped, MAX_READABLE);
      StrippingTheEndKeepsLetters(cut);
      LettersAppend(cut, stripped[|cut|..]);
      assert stripped == cut + stripped[|cut|..];
      assert Letters(cut) <= Letters(stripped);
      NoLettersMeansNothing(cut);
      StrippingShortens(Collapsed(name));
      assert |Collapsed(name)| <= MAX_READABLE ==> cut == stripped;
    } else {
      assert StripRight("tool") == "tool";
    }
  }

  lemma {:induction false} StrippingShortens(s: string)
    ensures |StripRight(StripLeft(s))| <= |s|
    decreases |s|
  {
    if s != "" && Edge(s[0]) {
      StrippingShortens(s[1..]);
    }
  }

  // ----- aliases -----

  /** The leading hexadecimal digits of a digest of the text. */
  type Digest = string -> string

  predicate HexText(s: string) {
    |s| == DIGEST_LENGTH && forall i | 0 <= i < |s| :: '0' <= s[i] <= '9' || 'a' <= s[i] <= 'f'
  }

  ghost predicate Hexadecimal(d: Digest) {
    forall s: string :: HexText(d(s))
  }

  function Decimal(n: nat): string {
    if n < 10 then [('0' as int + n) as char] else Decimal(n / 10) + [('0' as int + n % 10) as char]
  }

  function DigestInput(name: string, attempt: nat): string {
    if attempt == 0 then name else name + "\0" + Decimal(attempt)
  }

  function DecimalValue(s: string): int {
    if s == "" then 0 else DecimalValue(s[..|s| - 1]) * 10 + (s[|s| - 1] as int - '0' as int)
  }

  lemma {:induction false} DecimalReads(n: nat)
    ensures DecimalValue(Decimal(n)) == n
  {
    var s := Decimal(n);
    if n < 10 {
      assert s[..|s| - 1] == "";
    } else {
      DecimalReads(n / 10);
      assert s[..|s| - 1] == Decimal(n / 10);
    }
  }

  /** No two attempts on a name digest the same text. */
  lemma {:induction false} AttemptsDiffer(name: string, i: nat, j: nat)
    requires i != j
    ensures DigestInput(name, i) != DigestInput(name, j)
  {
    DecimalReads(i);
    DecimalReads(j);
    if i > 0 && j > 0 {
      assert (name + "\0" + Decimal(i))[|name| + 1..] == Decimal(i);
      assert (name + "\0" + Decimal(j))[|name| + 1..] == Decimal(j);
    } else {
      assert |name + "\0" + Decimal(if i > 0 then i else j)| > |name|;
    }
  }

  function AliasOf(d: Digest, name: string, attempt: nat): string {
    ReadablePart(name) + "_" + d(DigestInput(name, attempt))
  }

  ghost predicate LeastFree(d: Digest, name: string, reserved: set<string>, attempt: nat) {
    && AliasOf(d, name, attempt) !in reserved
    && forall m: nat | m < attempt :: AliasOf(d, name, m) in reserved
  }

  /** The alias of the first attempt that is not reserved. */
  ghost function AliasFor(d: Digest, name: string, reserved: set<string>): string {
    if attempt: nat :| LeastFree(d, name, reserved, attempt) then AliasOf(d, name, attempt) else ""
  }

  /** Some attempt leaves any reserved set of fewer than `bound` names. */
  ghost predicate Leaves(d: Digest, bound: nat) {
    forall name: string, reserved: set<string> | |reserved| < bound :: Escapes(d, name, reserved)
  }

  ghost predicate Escapes(d: Digest, name: string, reserved: set<string>) {
    exists n: nat :: AliasOf(d, name, n) !in reserved
  }

  lemma {:induction false} LeavesSmall(d: Digest, bound: nat, name: string, reserved: set<string>)
    requires Leaves(d, bound) && |reserved| < bound
    ensures Escapes(d, name, reserved)
  {
    hide Escapes;
  }

  ghost predicate AliasOfSome(d: Digest, name: string, alias: string) {
    exists attempt: nat :: alias == AliasOf(d, name, attempt)
  }

  lemma {:induction false} AliasIsPortable(d: Digest, name: string, attempt: nat)
    requires Hexadecimal(d)
    ensures Portable(AliasOf(d, name, attempt))
  {
    hide ReadablePart, DigestInput;
    assert HexText(d(DigestInput(name, attempt)));
  }

  lemma {:induction false} LeastFreeUnique(d: Digest, name: string, reserved: set<string>, m: nat, n: nat)
    requires LeastFree(d, name, reserved, m) && LeastFree(d, name, reserved, n)
    ensures m == n
  {
    hide AliasOf;
  }

  lemma {:induction false} AliasForIs(d: Digest, name: string, reserved: set<string>, attempt: nat)
    requires LeastFree(d, name, reserved, attempt)
    ensures AliasFor(d, name, reserved) == AliasOf(d, name, attempt)
  {
    hide AliasOf, LeastFree;
    var n: nat :| LeastFree(d, name, reserved, n) && AliasFor(d, name, reserved) == AliasOf(d, name, n);
    LeastFreeUnique(d, name, reserved, attempt, n);
  }

  lemma {:induction false} SearchSucceeds(d: Digest, name: string, reserved: set<string>, bound: nat) returns (attempt: nat)
    requires AliasOf(d, name, bound) !in reserved
    ensures attempt <= bound && LeastFree(d, name, reserved, attempt)
    decreases bound
  {
    hide AliasOf;
    if m: nat :| m < bound && AliasOf(d, name, m) !in reserved {
      attempt := SearchSucceeds(d, name, reserved, m);
    } else {
      attempt := bound;
    }
  }

  /** A digest whose first `bound` attempts differ for every name leaves every smaller reserved set. */
  lemma {:induction false} DistinctDigestsLeave(d: Digest, bound: nat)
    requires forall name: string, m: nat, n: nat | m < n < bound :: d(DigestInput(name, m)) != d(DigestInput(name, n))
    ensures Leaves(d, bound)
  {
    hide ReadablePart, DigestInput;
    forall name: string, reserved: set<string> | |reserved| < bound ensures Escapes(d, name, reserved) {
      if !Escapes(d, name, reserved) {
        var tried := FirstAliases(d, name, bound);
        assert tried <= reserved;
        Smaller(tried, reserved);
        assert false;
      }
    }
  }

  lemma {:induction false} FirstAliases(d: Digest, name: string, n: nat) returns (tried: set<string>)
    requires forall i: nat, j: nat | i < j < n :: d(DigestInput(name, i)) != d(DigestInput(name, j))
    ensures |tried| == n && forall s :: s in tried <==> exists i: nat :: i < n && s == AliasOf(d, name, i)
  {
    hide ReadablePart, DigestInput;
    if n == 0 {
      tried := {};
    } else {
      var before := FirstAliases(d, name, n - 1);
      var last := AliasOf(d, name, n - 1);
      forall i: nat | i < n - 1 ensures AliasOf(d, name, i) != last {
        var lead := ReadablePart(name) + "_";
        assert AliasOf(d, name, i)[|lead|..] == d(DigestInput(name, i));
        assert last[|lead|..] == d(DigestInput(name, n - 1));
      }
      tried := before + {last};
    }
  }

  lemma {:induction false} Smaller<T>(small: set<T>, large: set<T>)
    requires small <= large
    ensures |small| <= |large|
  {
    assert large == small + (large - small);
  }

  // ----- the order of names -----

  predicate Less(a: string, b: string)
    decreases |a|
  {
    if b == "" then false
    else if a == "" then true
    else if a[0] != b[0] then a[0] < b[0]
    else Less(a[1..], b[1..])
  }

  lemma {:induction false} LessIsStrict(a: string)
    ensures !Less(a, a)
  {
    if a != "" {
      LessIsStrict(a[1..]);
    }
  }

  lemma {:induction false} LessTransitive(a: string, b: string, c: string)
    requires Less(a, b) && Less(b, c)
    ensures Less(a, c)
    decreases |a|
  {
    if a != "" && a[0] == b[0] && b[0] == c[0] {
      LessTransitive(a[1..], b[1..], c[1..]);
    }
  }

  lemma {:induction false} LessTotal(a: string, b: string)
    requires a != b
    ensures Less(a, b) || Less(b, a)
    decreases |a|
  {
    if a != "" && b != "" && a[0] == b[0] {
      assert a == [a[0]] + a[1..] && b == [b[0]] + b[1..];
      LessTotal(a[1..], b[1..]);
    }
  }

  ghost predicate Ascending(order: seq<string>) {
    forall i, j | 0 <= i < j < |order| :: Less(order[i], order[j])
  }

  ghost predicate Lists(order: seq<string>, names: set<string>) {
    Ascending(order) && forall s :: s in order <==> s in names
  }

  /** A set of names has one ascending listing. */
  lemma {:induction false} OneListing(xs: seq<string>, ys: seq<string>, names: set<string>)
    requires Lists(xs, names) && Lists(ys, names)
    ensures xs == ys
    decreases |xs|
  {
    if xs == [] {
      if ys != [] {
        FirstIsFirst(ys, xs, names);
      }
    } else {
      assert xs[0] in names;
      FirstIsFirst(xs, ys, names);
      TailLists(xs, names);
      TailLists(ys, names);
      OneListing(xs[1..], ys[1..], names - {xs[0]});
      assert xs == [xs[0]] + xs[1..] && ys == [ys[0]] + ys[1..];
    }
  }

  lemma {:induction false} FirstIsFirst(xs: seq<string>, ys: seq<string>, names: set<string>)
    requires Lists(xs, names) && Lists(ys, names) && xs != []
    ensures ys != [] && xs[0] == ys[0]
  {
    assert xs[0] in names;
    var i :| 0 <= i < |ys| && ys[i] == xs[0];
    assert ys[0] in names;
    var j :| 0 <= j < |xs| && xs[j] == ys[0];
    if i > 0 && j > 0 {
      LessTransitive(xs[0], ys[0], ys[i]);
      LessIsStrict(xs[0]);
      assert false;
    }
  }

  lemma {:induction false} TailLists(xs: seq<string>, names: set<string>)
    requires Lists(xs, names) && xs != []
    ensures Lists(xs[1..], names - {xs[0]})
  {
    forall s ensures s in xs[1..] <==> s in names - {xs[0]} {
      if s in xs[1..] {
        var i :| 0 <= i < |xs[1..]| && xs[1..][i] == s;
        assert s == xs[i + 1] && s in xs;
        LessIsStrict(s);
      }
      if s in names && s != xs[0] {
        var i :| 0 <= i < |xs| && xs[i] == s;
        assert xs[1..][i - 1] == s;
      }
    }
  }

  function Inserted(name: string, order: seq<string>): seq<string> {
    if order == [] then [name]
    else if Less(name, order[0]) then [name] + order
    else [order[0]] + Inserted(name, order[1..])
  }

  lemma {:induction false} InsertedLists(name: string, order: seq<string>, names: set<string>)
    requires Lists(order, names) && name !in names
    ensures Lists(Inserted(name, order), names + {name})
    decreases |order|
  {
    if order != [] {
      assert order[0] in names;
      if Less(name, order[0]) {
        forall j | 0 <= j < |order| ensures Less(name, order[j]) {
          if j > 0 {
            LessTransitive(name, order[0], order[j]);
          }
        }
      } else {
        LessTotal(name, order[0]);
        TailLists(order, names);
        InsertedLists(name, order[1..], names - {order[0]});
        var rest := Inserted(name, order[1..]);
        forall j | 0 <= j < |rest| ensures Less(order[0], rest[j]) {
          assert rest[j] in rest;
          if rest[j] != name {
            var k :| 0 <= k < |order| && order[k] == rest[j];
          }
        }
      }
    }
  }

  // ----- the codec -----

  datatype Codec = Codec(toAlias: map<string, string>, toOriginal: map<string, string>, kept: set<string>) {
    predicate HasAliases() {
      toAlias != map[]
    }

    function Encode(name: string): string {
      if name in toAlias then toAlias[name] else name
    }

    function Decode(name: string): string {
      if name in toOriginal then toOriginal[name] else name
    }

    predicate IsAlias(value: string) {
      value in toOriginal
    }

    predicate IsUnchanged(value: string) {
      value in kept
    }

    /** An incomplete prefix of a generated alias. */
    predicate IsAliasPrefix(value: string) {
      value != "" && exists alias | alias in toOriginal :: alias != value && value <= alias
    }
  }

  function NonEmpty(names: seq<string>): (r: set<string>)
    ensures forall s :: s in r <==> s in names && s != ""
  {
    set i | 0 <= i < |names| && names[i] != "" :: names[i]
  }

  function PortableAmong(names: set<string>): set<string> {
    set s | s in names && Portable(s)
  }

  /** The codec after the first `n` names, taken in order, have been given aliases. */
  ghost function Assigned(d: Digest, order: seq<string>, portable: set<string>, n: nat): Codec
    requires n <= |order|
  {
    if n == 0 then Codec(map[], map[], portable)
    else
      var before := Assigned(d, order, portable, n - 1);
      var alias := AliasFor(d, order[n - 1], portable + before.toOriginal.Keys);
      Codec(before.toAlias[order[n - 1] := alias], before.toOriginal[alias := order[n - 1]], portable)
  }

  /** The codec of a set of names: aliases are assigned in ascending order. */
  ghost predicate IsCodecFor(d: Digest, names: set<string>, codec: Codec) {
    exists order :: ListedAs(d, names, order, codec)
  }

  ghost predicate ListedAs(d: Digest, names: set<string>, order: seq<string>, codec: Codec) {
    && Lists(order, names - PortableAmong(names))
    && codec == Assigned(d, order, PortableAmong(names), |order|)
  }

  method UniqueAlias(d: Digest, name: string, reserved: set<string>) returns (alias: string)
    requires Escapes(d, name, reserved)
    ensures alias == AliasFor(d, name, reserved) && alias !in reserved
    ensures AliasOfSome(d, name, alias)
  {
    hide ReadablePart, DigestInput;
    var readable := ReadablePart(name);
    ghost var bound: nat :| AliasOf(d, name, bound) !in reserved;
    var attempt: nat := 0;
    alias := readable + "_" + d(DigestInput(name, attempt));
    while alias in reserved
      invariant attempt <= bound && alias == AliasOf(d, name, attempt)
      invariant forall m: nat | m < attempt :: AliasOf(d, name, m) in reserved
      decreases bound - attempt
    {
      attempt := attempt + 1;
      alias := readable + "_" + d(DigestInput(name, attempt));
    }
    AliasForIs(d, name, reserved, attempt);
  }

  method SortNames(names: set<string>) returns (order: seq<string>)
    ensures Lists(order, names)
  {
    order := [];
    var rest, done := names, {};
    while rest != {}
      invariant rest !! done && rest + done == names && Lists(order, done)
      decreases |rest|
    {
      var name :| name in rest;
      InsertedLists(name, order, done);
      order := Inserted(name, order);
      rest, done := rest - {name}, done + {name};
    }
    assert done == names;
  }

  /** Builds the codec of the supplied names; empty names are dropped. */
  method FromNames(d: Digest, names: seq<string>) returns (codec: Codec)
    requires Leaves(d, |NonEmpty(names)|)
    ensures IsCodecFor(d, NonEmpty(names), codec)
  {
    hide AliasFor, AliasOf, Lists, PortableAmong, Escapes, Leaves, NonEmpty, AliasOfSome;
    var unique := NonEmpty(names);
    var portable := PortableAmong(unique);
    var order := SortNames(unique - portable);
    var reserved := portable;
    var toAlias: map<string, string>, toOriginal: map<string, string> := map[], map[];
    for n := 0 to |order|
      invariant Codec(toAlias, toOriginal, portable) == Assigned(d, order, portable, n)
      invariant reserved == portable + toOriginal.Keys && |toOriginal.Keys| <= n
    {
      NextEscapes(d, unique, order, toOriginal.Keys, n);
      var alias := UniqueAlias(d, order[n], reserved);
      reserved := reserved + {alias};
      toAlias := toAlias[order[n] := alias];
      toOriginal := toOriginal[alias := order[n]];
    }
    codec := Codec(toAlias, toOriginal, portable);
    assert ListedAs(d, unique, order, codec);
  }

  /** While a name is still waiting for its alias, fewer names are reserved than were supplied. */
  lemma {:induction false} SetBound(unique: set<string>, portable: set<string>, order: seq<string>, aliases: set<string>, n: nat)
    requires portable <= unique && Lists(order, unique - portable) && n < |order| && |aliases| <= n
    ensures |portable + aliases| < |unique|
  {
    ListingLength(order, unique - portable);
    assert |unique - portable| == |unique| - |portable| by {
      assert unique == portable + (unique - portable);
    }
    assert portable + aliases == portable + (aliases - portable);
    Smaller(aliases - portable, aliases);
  }

  lemma {:induction false} NextEscapes(d: Digest, unique: set<string>, order: seq<string>, aliases: set<string>, n: nat)
    requires Leaves(d, |unique|) && Lists(order, unique - PortableAmong(unique)) && n < |order| && |aliases| <= n
    ensures Escapes(d, order[n], PortableAmong(unique) + aliases)
  {
    hide AliasOf, Lists, Leaves, Escapes, Portable;
    SetBound(unique, PortableAmong(unique), order, aliases, n);
    LeavesSmall(d, |unique|, order[n], PortableAmong(unique) + aliases);
  }

  lemma {:induction false} ListingLength(order: seq<string>, names: set<string>)
    requires Lists(order, names)
    ensures |order| == |names|
    decreases |order|
  {
    if order == [] {
      assert forall s :: s in names <==> s in order;
    } else {
      assert order[0] in names;
      TailLists(order, names);
      ListingLength(order[1..], names - {order[0]});
    }
  }

  // ----- what every codec keeps -----

  /** Aliases are distinct, free of clashes with unchanged names, and can be read back. */
  ghost predicate Paired(d: Digest, portable: set<string>, codec: Codec) {
    && (forall s | s in codec.toAlias ::
          codec.toAlias[s] in codec.toOriginal && codec.toOriginal[codec.toAlias[s]] == s)
    && (forall a | a in codec.toOriginal ::
          && a !in portable && codec.toOriginal[a] in codec.toAlias && codec.toAlias[codec.toOriginal[a]] == a
          && AliasOfSome(d, codec.toOriginal[a], a))
  }

  ghost predicate Covers(order: seq<string>, portable: set<string>, codec: Codec, n: nat)
    requires n <= |order|
  {
    && codec.kept == portable && |codec.toOriginal.Keys| <= n
    && forall s :: s in codec.toAlias <==> s in order[..n]
  }

  ghost predicate Sound(d: Digest, order: seq<string>, portable: set<string>, codec: Codec, n: nat)
    requires n <= |order|
  {
    Paired(d, portable, codec) && Covers(order, portable, codec, n)
  }

  lemma {:induction false} AliasForEscapes(d: Digest, name: string, reserved: set<string>)
    requires Escapes(d, name, reserved)
    ensures AliasFor(d, name, reserved) !in reserved
    ensures AliasOfSome(d, name, AliasFor(d, name, reserved))
  {
    hide AliasOf;
    var bound: nat :| AliasOf(d, name, bound) !in reserved;
    var attempt := SearchSucceeds(d, name, reserved, bound);
    AliasForIs(d, name, reserved, attempt);
  }

  lemma {:induction false} AssignedStep(d: Digest, order: seq<string>, portable: set<string>, n: nat)
    requires n < |order|
    ensures Assigned(d, order, portable, n + 1)
            == WithAlias(d, Assigned(d, order, portable, n), portable, order[n])
  {
    hide AliasFor;
  }

  ghost function WithAlias(d: Digest, before: Codec, portable: set<string>, name: string): Codec {
    var alias := AliasFor(d, name, portable + before.toOriginal.Keys);
    Codec(before.toAlias[name := alias], before.toOriginal[alias := name], portable)
  }

  lemma {:induction false} AssignedIsSound(d: Digest, unique: set<string>, order: seq<string>, n: nat)
    requires Leaves(d, |unique|) && Lists(order, unique - PortableAmong(unique)) && n <= |order|
    ensures Sound(d, order, PortableAmong(unique), Assigned(d, order, PortableAmong(unique), n), n)
  {
    hide AliasFor, AliasOf, PortableAmong, Escapes, Lists, Leaves, Sound, WithAlias, Assigned;
    var portable := PortableAmong(unique);
    if n == 0 {
      NothingAssigned(d, order, portable);
    } else {
      AssignedIsSound(d, unique, order, n - 1);
      var before := Assigned(d, order, portable, n - 1);
      SoundSize(d, order, portable, before, n - 1);
      NextEscapes(d, unique, order, before.toOriginal.Keys, n - 1);
      NotYetAssigned(order, unique - portable, n - 1);
      OneMoreAlias(d, order, portable, before, n - 1);
      AssignedStep(d, order, portable, n - 1);
    }
  }

  lemma {:induction false} NothingAssigned(d: Digest, order: seq<string>, portable: set<string>)
    ensures Sound(d, order, portable, Assigned(d, order, portable, 0), 0)
  {
  }

  lemma {:induction false} SoundSize(d: Digest, order: seq<string>, portable: set<string>, codec: Codec, n: nat)
    requires n <= |order| && Sound(d, order, portable, codec, n)
    ensures |codec.toOriginal.Keys| <= n
  {
  }

  lemma {:induction false} NotYetAssigned(order: seq<string>, names: set<string>, n: nat)
    requires Lists(order, names) && n < |order|
    ensures forall i | 0 <= i < n :: order[i] != order[n]
  {
    LessIsStrict(order[n]);
  }

  lemma {:induction false} OneMoreAlias(d: Digest, order: seq<string>, portable: set<string>, before: Codec, n: nat)
    requires n < |order| && Sound(d, order, portable, before, n)
    requires Escapes(d, order[n], portable + before.toOriginal.Keys) && forall i | 0 <= i < n :: order[i] != order[n]
    ensures Sound(d, order, portable, WithAlias(d, before, portable, order[n]), n + 1)
  {
    hide AliasOfSome, AliasFor, Escapes, Paired;
    AliasForEscapes(d, order[n], portable + before.toOriginal.Keys);
    var alias := AliasFor(d, order[n], portable + before.toOriginal.Keys);
    assert order[n] !in before.toAlias;
    OneMorePair(d, portable, before, order[n], alias);
    OneMoreCovered(order, portable, before, alias, n);
  }

  lemma {:induction false} OneMorePair(d: Digest, portable: set<string>, before: Codec, name: string, alias: string)
    requires Paired(d, portable, before) && name !in before.toAlias
    requires alias !in portable && alias !in before.toOriginal && AliasOfSome(d, name, alias)
    ensures Paired(d, portable, Codec(before.toAlias[name := alias], before.toOriginal[alias := name], portable))
  {
    hide AliasOfSome;
  }

  lemma {:induction false} OneMoreCovered(order: seq<string>, portable: set<string>, before: Codec, alias: string, n: nat)
    requires n < |order| && Covers(order, portable, before, n) && alias !in before.toOriginal
    ensures Covers(order, portable, Codec(before.toAlias[order[n] := alias], before.toOriginal[alias := order[n]], portable), n + 1)
  {
    assert order[..n + 1] == order[..n] + [order[n]];
    assert before.toOriginal[alias := order[n]].Keys == before.toOriginal.Keys + {alias};
  }

  lemma {:induction false} CodecIsSound(d: Digest, names: set<string>, codec: Codec) returns (order: seq<string>)
    requires Leaves(d, |names|) && IsCodecFor(d, names, codec)
    ensures ListedAs(d, names, order, codec)
    ensures Sound(d, order, PortableAmong(names), codec, |order|)
    ensures forall s :: s in codec.toAlias <==> s in names && !Portable(s)
  {
    hide AliasFor, AliasOf, Portable, Assigned;
    order :| ListedAs(d, names, order, codec);
    AssignedIsSound(d, names, order, |order|);
    forall s ensures s in codec.toAlias <==> s in names && !Portable(s) {
      assert order[..|order|] == order;
    }
  }

  // ----- main results -----

  /** Decoding undoes encoding on every supplied name. */
  lemma {:induction false} DecodeUndoesEncode(d: Digest, names: set<string>, codec: Codec, name: string)
    requires Leaves(d, |names|) && IsCodecFor(d, names, codec) && name in names
    ensures codec.Decode(codec.Encode(name)) == name
  {
    hide AliasFor, AliasOf, Portable, ListedAs;
    var order := CodecIsSound(d, names, codec);
    if name !in codec.toAlias {
      assert name in PortableAmong(names);
    }
  }

  /** Distinct names are sent upstream as distinct names. */
  lemma {:induction false} EncodeIsInjective(d: Digest, names: set<string>, codec: Codec, a: string, b: string)
    requires Leaves(d, |names|) && IsCodecFor(d, names, codec) && a in names && b in names
    requires codec.Encode(a) == codec.Encode(b)
    ensures a == b
  {
    hide IsCodecFor, Leaves;
    DecodeUndoesEncode(d, names, codec, a);
    DecodeUndoesEncode(d, names, codec, b);
  }

  /** Every name sent upstream is portable; a name is changed exactly when it is not portable itself. */
  lemma {:induction false} EncodedNamesArePortable(d: Digest, names: set<string>, codec: Codec, name: string)
    requires Hexadecimal(d) && Leaves(d, |names|) && IsCodecFor(d, names, codec) && name in names
    ensures Portable(codec.Encode(name))
    ensures codec.Encode(name) == name <==> Portable(name)
    ensures codec.IsAlias(codec.Encode(name)) <==> !Portable(name)
    ensures codec.IsUnchanged(name) <==> Portable(name)
  {
    hide AliasFor, AliasOf, Portable, ListedAs, Hexadecimal;
    var order := CodecIsSound(d, names, codec);
    if name in codec.toAlias {
      var alias := codec.toAlias[name];
      var attempt: nat :| alias == AliasOf(d, name, attempt);
      AliasIsPortable(d, name, attempt);
    } else {
      assert name in PortableAmong(names);
    }
  }

  /** Aliases belong to supplied names only, and none is a supplied portable name. */
  lemma {:induction false} AliasesComeFromNames(d: Digest, names: set<string>, codec: Codec, value: string)
    requires Leaves(d, |names|) && IsCodecFor(d, names, codec) && codec.IsAlias(value)
    ensures codec.Decode(value) in names && !Portable(codec.Decode(value)) && codec.Encode(codec.Decode(value)) == value
    ensures !codec.IsUnchanged(value)
  {
    hide AliasFor, AliasOf, Portable, ListedAs;
    var order := CodecIsSound(d, names, codec);
  }

  /** A text is an incomplete alias exactly when it is a proper, non-empty prefix of what a supplied name is sent as. */
  lemma {:induction false} IncompleteAliases(d: Digest, names: set<string>, codec: Codec, value: string)
    requires Leaves(d, |names|) && IsCodecFor(d, names, codec)
    ensures codec.IsAliasPrefix(value) <==>
            value != "" && exists name | name in names && !Portable(name) :: value < codec.Encode(name)
    ensures codec.HasAliases() <==> exists name :: name in names && !Portable(name)
  {
    hide AliasFor, AliasOf, Portable, ListedAs;
    var order := CodecIsSound(d, names, codec);
    if codec.IsAliasPrefix(value) {
      var alias :| alias in codec.toOriginal && alias != value && value <= alias;
      AliasesComeFromNames(d, names, codec, alias);
      assert value < codec.Encode(codec.Decode(alias));
    }
    if value != "" && exists name | name in names && !Portable(name) :: value < codec.Encode(name) {
      var name :| name in names && !Portable(name) && value < codec.Encode(name);
      assert codec.toAlias[name] in codec.toOriginal;
    }
    if name :| name in codec.toAlias {
      assert name in names && !Portable(name);
    }
  }

  /** The codec depends on the set of names only, not on their order or repetition. */
  lemma {:induction false} OrderDoesNotMatter(d: Digest, xs: seq<string>, ys: seq<string>, a: Codec, b: Codec)
    requires forall s :: s in xs <==> s in ys
    requires IsCodecFor(d, NonEmpty(xs), a) && IsCodecFor(d, NonEmpty(ys), b)
    ensures a == b
  {
    hide AliasFor, Portable, Lists, Assigned;
    assert NonEmpty(xs) == NonEmpty(ys);
    var p :| ListedAs(d, NonEmpty(xs), p, a);
    var q :| ListedAs(d, NonEmpty(xs), q, b);
    OneListing(p, q, NonEmpty(xs) - PortableAmong(NonEmpty(xs)));
  }
}
