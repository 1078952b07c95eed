/** Canonical footprint paths: strict normalisation, the lenient form used for persisted
    data, and the amended footprint of a held claim. */
module FootprintPaths {
  import opened Wrappers

  datatype PathError = DriveQualified | Absolute | ResolvesToRoot | EscapesRoot

  // ---- Splitting and joining at '/' ----

  function Split(s: string): (parts: seq<string>)
    ensures |parts| >= 1
  {
    if s == "" then [""]
    else if s[0] == '/' then [""] + Split(s[1..])
    else
      var rest := Split(s[1..]);
      [[s[0]] + rest[0]] + rest[1..]
  }

  function Join(parts: seq<string>): string
    requires parts != []
  {
    if |parts| == 1 then parts[0] else parts[0] + "/" + Join(parts[1..])
  }

  lemma {:induction false} SplitHasNoSlash(s: string)
    ensures forall c | c in Split(s) :: '/' !in c
  {
    if s != "" {
      SplitHasNoSlash(s[1..]);
    }
  }

  lemma {:induction false} SplitPart(head: string, rest: string)
    requires '/' !in head
    ensures Split(head + "/" + rest) == [head] + Split(rest)
    ensures Split(head) == [head]
  {
    var s := head + "/" + rest;
    if head == "" {
      assert s[1..] == rest;
    } else {
      assert s[1..] == head[1..] + "/" + rest;
      assert s[0] == head[0];
      SplitPart(head[1..], rest);
      assert [head[0]] + head[1..] == head;
    }
  }

  /** Splitting a joined path gives its components back. */
  lemma {:induction false} SplitJoin(parts: seq<string>)
    requires parts != [] && forall c | c in parts :: '/' !in c
    ensures Split(Join(parts)) == parts
  {
    if |parts| == 1 {
      SplitPart(parts[0], "");
    } else {
      SplitJoin(parts[1..]);
      SplitPart(parts[0], Join(parts[1..]));
    }
  }

  // ---- The lexical walk of the normaliser ----

  // One component, as the normaliser stacks it.
  function Enter(stack: seq<string>, part: string): seq<string> {
    if part == "" || part == "." then stack
    else if part != ".." || stack == [] || stack[|stack| - 1] == ".." then stack + [part]
    else stack[..|stack| - 1]
  }

  function Walk(parts: seq<string>, stack: seq<string>): seq<string> {
    if parts == [] then stack else Walk(parts[1..], Enter(stack, parts[0]))
  }

  function NormPath(path: string): string {
    var stack := Walk(Split(path), []);
    if stack == [] then "." else Join(stack)
  }

  function Slashed(path: string): string {
    seq(|path|, i requires 0 <= i < |path| => if path[i] == '\\' then '/' else path[i])
  }

  predicate IsLetter(c: char) {
    'a' <= c <= 'z' || 'A' <= c <= 'Z'
  }

  predicate IsDrive(path: string) {
    |path| >= 2 && IsLetter(path[0]) && path[1] == ':'
  }

  function Normalize(path: string): Result<string, PathError> {
    var clean := Slashed(path);
    if IsDrive(clean) then Err(DriveQualified)
    else if "/" <= clean then Err(Absolute)
    else
      var normalized := NormPath(clean);
      if normalized == "" || normalized == "." then Err(ResolvesToRoot)
      else if normalized == ".." || "../" <= normalized then Err(EscapesRoot)
      else Ok(normalized)
  }

  // ---- What a path means ----

  // A place reached from the root: so many levels above it, then down these names.
  datatype Place = Place(ups: nat, names: seq<string>)

  function Go(place: Place, part: string): Place {
    if part == "" || part == "." then place
    else if part != ".." then place.(names := place.names + [part])
    else if place.names != [] then place.(names := place.names[..|place.names| - 1])
    else place.(ups := place.ups + 1)
  }

  function GoAll(place: Place, parts: seq<string>): Place
    decreases parts
  {
    if parts == [] then place else GoAll(Go(place, parts[0]), parts[1..])
  }

  function Resolve(path: string): Place {
    GoAll(Place(0, []), Split(Slashed(path)))
  }

  predicate IsName(part: string) {
    part != "" && part != "." && part != ".." && '/' !in part
  }

  predicate Named(place: Place) {
    forall c | c in place.names :: IsName(c)
  }

  function Parents(n: nat): seq<string> {
    seq(n, _ => "..")
  }

  function Stack(place: Place): seq<string> {
    Parents(place.ups) + place.names
  }

  lemma EnterIsGo(place: Place, part: string)
    requires Named(place) && '/' !in part
    ensures Enter(Stack(place), part) == Stack(Go(place, part)) && Named(Go(place, part))
  {
    var stack := Stack(place);
    if part == ".." && place.names == [] {
      assert Parents(place.ups + 1) == Parents(place.ups) + [".."];
      if stack != [] {
        assert stack[|stack| - 1] == "..";
      }
    } else if part == ".." {
      assert stack[|stack| - 1] == place.names[|place.names| - 1] && place.names[|place.names| - 1] in place.names;
      assert IsName(stack[|stack| - 1]);
      assert stack[..|stack| - 1] == Parents(place.ups) + place.names[..|place.names| - 1];
    } else if part != "" && part != "." {
      assert stack + [part] == Parents(place.ups) + (place.names + [part]);
    }
  }

  lemma {:induction false} WalkIsGoAll(place: Place, parts: seq<string>)
    requires Named(place) && forall c | c in parts :: '/' !in c
    ensures Walk(parts, Stack(place)) == Stack(GoAll(place, parts)) && Named(GoAll(place, parts))
    decreases parts
  {
    if parts != [] {
      EnterIsGo(place, parts[0]);
      WalkIsGoAll(Go(place, parts[0]), parts[1..]);
    }
  }

  lemma NormPathIsPlace(path: string)
    ensures Walk(Split(Slashed(path)), []) == Stack(Resolve(path)) && Named(Resolve(path))
    ensures forall c | c in Stack(Resolve(path)) :: '/' !in c && c != ""
  {
    SplitHasNoSlash(Slashed(path));
    assert Stack(Place(0, [])) == [];
    WalkIsGoAll(Place(0, []), Split(Slashed(path)));
  }

  // A path stays inside the repository and names something in it.
  predicate Inside(place: Place) {
    place.ups == 0 && place.names != []
  }

  // How the joined stack starts tells how far it climbs.
  lemma JoinedStart(place: Place)
    requires Named(place) && Stack(place) != []
    ensures Join(Stack(place)) != "" && Join(Stack(place)) != "."
    ensures (Join(Stack(place)) == ".." || "../" <= Join(Stack(place))) <==> place.ups > 0
    ensures !("/" <= Join(Stack(place)))
  {
    var stack := Stack(place);
    var joined := Join(stack);
    assert if place.ups > 0 then stack[0] == ".." else stack[0] in place.names && IsName(stack[0]);
    assert stack[0] <= joined && stack[0] != "" && '/' !in stack[0];
    assert joined[0] == stack[0][0];
    if place.ups > 0 {
      assert stack[0] == "..";
    } else {
      assert stack[0] == place.names[0] && IsName(stack[0]);
      if "../" <= joined {
        assert joined[..3] == "../";
        SplitJoin(stack);
        assert joined == ".." + "/" + joined[3..];
        SplitPart("..", joined[3..]);
      }
      if joined == ".." {
        SplitJoin(stack);
        SplitPart("..", "");
      }
    }
    if joined == "." {
      SplitJoin(stack);
      SplitPart(".", "");
    }
  }

  /** Strict normalisation succeeds exactly on relative, drive-free paths that stay inside
      the repository, and then spells out the place they name. */
  lemma NormalizeMeaning(path: string)
    ensures Normalize(path).Ok? <==> !IsDrive(Slashed(path)) && !("/" <= Slashed(path)) && Inside(Resolve(path))
    ensures Normalize(path).Ok? ==>
      && Normalize(path).value == Join(Resolve(path).names)
      && Split(Normalize(path).value) == Resolve(path).names
      && forall c | c in Split(Normalize(path).value) :: IsName(c)
  {
    NormPathIsPlace(path);
    var place := Resolve(path);
    if Stack(place) != [] {
      JoinedStart(place);
    }
    if place.ups == 0 {
      assert Stack(place) == place.names;
      if place.names != [] {
        SplitJoin(place.names);
      }
    } else {
      assert Stack(place)[0] == "..";
    }
  }

  /** Two normalised paths are equal exactly when their walks reach the same place. */
  lemma EqualIffSamePlace(path: string, other: string)
    requires Normalize(path).Ok? && Normalize(other).Ok?
    ensures Normalize(path).value == Normalize(other).value <==> Resolve(path) == Resolve(other)
  {
    NormalizeMeaning(path);
    NormalizeMeaning(other);
  }

  lemma SlashedKeepsClean(path: string)
    requires '\\' !in path
    ensures Slashed(path) == path
  {
  }

  lemma {:induction false} NamesWalkToThemselves(place: Place, names: seq<string>)
    requires forall c | c in names :: IsName(c)
    ensures GoAll(place, names) == place.(names := place.names + names)
    decreases names
  {
    if names != [] {
      assert names[0] in names && IsName(names[0]);
      NamesWalkToThemselves(Go(place, names[0]), names[1..]);
      assert (place.names + [names[0]]) + names[1..] == place.names + names;
    } else {
      assert place.names + [] == place.names;
    }
  }

  lemma {:induction false} JoinChars(parts: seq<string>, c: char)
    requires parts != [] && c in Join(parts)
    ensures c == '/' || exists p :: p in parts && c in p
  {
    if |parts| > 1 && c !in parts[0] && c != '/' {
      assert c in Join(parts[1..]);
      JoinChars(parts[1..], c);
      var p :| p in parts[1..] && c in p;
      assert p in parts;
    } else if c in parts[0] {
      assert parts[0] in parts;
    }
  }

  lemma {:induction false} SplitChars(s: string, part: string, c: char)
    requires part in Split(s) && c in part
    ensures c in s
  {
    if s != "" {
      if s[0] == '/' {
        if part != "" {
          assert part in Split(s[1..]);
        }
        SplitChars(s[1..], part, c);
      } else {
        var rest := Split(s[1..]);
        if part == [s[0]] + rest[0] {
          if c != s[0] {
            SplitChars(s[1..], rest[0], c);
          }
        } else {
          assert part in rest;
          SplitChars(s[1..], part, c);
        }
      }
    }
  }

  lemma {:induction false} WalkNames(place: Place, parts: seq<string>, c: string)
    requires c in GoAll(place, parts).names
    ensures c in place.names || c in parts
    decreases parts
  {
    if parts != [] {
      WalkNames(Go(place, parts[0]), parts[1..], c);
    }
  }

  lemma NormalizedHasNoBackslash(path: string)
    requires Normalize(path).Ok?
    ensures '\\' !in Normalize(path).value
  {
    NormalizeMeaning(path);
    var q := Normalize(path).value;
    if '\\' in q {
      JoinChars(Resolve(path).names, '\\');
      var part :| part in Resolve(path).names && '\\' in part;
      WalkNames(Place(0, []), Split(Slashed(path)), part);
      SplitChars(Slashed(path), part, '\\');
      assert false;
    }
  }

  /** Normalising twice gives the same path exactly when the first result does not look
      like a drive; otherwise the second attempt refuses it. */
  lemma NormalizeAgain(path: string)
    requires Normalize(path).Ok?
    ensures !IsDrive(Normalize(path).value) ==> Normalize(Normalize(path).value) == Ok(Normalize(path).value)
    ensures IsDrive(Normalize(path).value) ==> Normalize(Normalize(path).value) == Err(DriveQualified)
  {
    var q := Normalize(path).value;
    NormalizeMeaning(path);
    NormalizedHasNoBackslash(path);
    SlashedKeepsClean(q);
    NamesWalkToThemselves(Place(0, []), Resolve(path).names);
    assert Resolve(q) == Place(0, Resolve(path).names);
    NormalizeMeaning(q);
    NormPathIsPlace(path);
    assert Stack(Resolve(path)) == Resolve(path).names;
    JoinedStart(Resolve(path));
  }

  lemma JoinOne(part: string)
    ensures Join([part]) == part
  {
  }

  /** A path on which strict normalisation is not idempotent. */
  lemma NormalizeIsNotIdempotent()
    ensures Normalize("./C:x") == Ok("C:x") && Normalize("C:x") == Err(DriveQualified)
  {
    hide NormPath, Split, Walk, Enter, Join;
    SplitPart(".", "C:x");
    SplitPart("C:x", "");
    assert "./C:x" == "." + "/" + "C:x";
    assert Slashed("./C:x") == "./C:x" && Slashed("C:x") == "C:x";
    var names := ["C:x"];
    assert [".", "C:x"][1..] == names && names[1..] == [];
    assert GoAll(Place(0, []), [".", "C:x"]) == GoAll(Place(0, []), names) == Place(0, names);
    NormalizeMeaning("./C:x");
    assert Join(names) == "C:x" by {
      JoinOne("C:x");
    }
  }

  // ---- Lists of paths ----

  predicate Unique<T(==,!new)>(xs: seq<T>) {
    forall i, j | 0 <= i < j < |xs| :: xs[i] != xs[j]
  }

  // Keep the first occurrence of every element.
  function Dedupe<T(==,!new)>(xs: seq<T>): (r: seq<T>)
    ensures Unique(r)
    ensures forall x :: x in r <==> x in xs
  {
    if xs == [] then []
    else
      var init, last := Dedupe(xs[..|xs| - 1]), xs[|xs| - 1];
      assert xs == xs[..|xs| - 1] + [last];
      if last in init then init else init + [last]
  }

  lemma {:induction false} DedupePrefix<T(!new)>(xs: seq<T>, ys: seq<T>)
    ensures Dedupe(xs) <= Dedupe(xs + ys)
    ensures (forall y | y in ys :: y in xs) ==> Dedupe(xs + ys) == Dedupe(xs)
  {
    if ys == [] {
      assert xs + ys == xs;
    } else {
      DedupePrefix(xs, ys[..|ys| - 1]);
      assert (xs + ys)[..|xs + ys| - 1] == xs + ys[..|ys| - 1];
    }
  }

  lemma {:induction false} DedupeUnique<T(!new)>(xs: seq<T>)
    requires Unique(xs)
    ensures Dedupe(xs) == xs
  {
    if xs != [] {
      DedupeUnique(xs[..|xs| - 1]);
      assert xs == xs[..|xs| - 1] + [xs[|xs| - 1]];
    }
  }

  function Lenient(path: string): string {
    match Normalize(path)
    case Ok(normalized) => normalized
    case Err(_) => path
  }

  function Lenients(paths: seq<string>): seq<string> {
    seq(|paths|, i requires 0 <= i < |paths| => Lenient(paths[i]))
  }

  function Canonicalize(paths: seq<string>): seq<string> {
    Dedupe(Lenients(paths))
  }

  // What canonicalisation leaves alone: distinct paths, each in its lenient form.
  predicate Canonical(paths: seq<string>) {
    Unique(paths) && forall p | p in paths :: Lenient(p) == p
  }

  method CanonicalizeFootprint(paths: seq<string>) returns (footprint: seq<string>)
    ensures footprint == Canonicalize(paths)
  {
    var result: seq<string> := [];
    for i := 0 to |paths|
      invariant result == Lenients(paths)[..i]
    {
      var normalized := Normalize(paths[i]);
      result := result + [if normalized.Ok? then normalized.value else paths[i]];
    }
    assert Lenients(paths)[..|paths|] == Lenients(paths);
    footprint := Dedupe(result);
  }

  /** The lenient form is idempotent on every path, normalisable or not. */
  lemma LenientIdempotent(path: string)
    ensures Lenient(Lenient(path)) == Lenient(path)
  {
    if Normalize(path).Ok? {
      NormalizeAgain(path);
    }
  }

  /** Canonical footprints are exactly the fixed points of canonicalisation, and
      canonicalisation always yields one, with the same paths up to their lenient form. */
  lemma CanonicalFixedPoint(paths: seq<string>)
    ensures Canonical(Canonicalize(paths))
    ensures Canonical(paths) <==> Canonicalize(paths) == paths
    ensures forall p :: p in Canonicalize(paths) <==> exists q :: q in paths && Lenient(q) == p
  {
    var lenients := Lenients(paths);
    forall p ensures p in lenients <==> exists q :: q in paths && Lenient(q) == p {
      if p in lenients {
        var i :| 0 <= i < |lenients| && lenients[i] == p;
        assert paths[i] in paths && Lenient(paths[i]) == p;
      }
      if q :| q in paths && Lenient(q) == p {
        var i :| 0 <= i < |paths| && paths[i] == q;
        assert lenients[i] == p;
      }
    }
    forall p | p in Canonicalize(paths) ensures Lenient(p) == p {
      var q :| q in paths && Lenient(q) == p;
      LenientIdempotent(q);
    }
    if Canonical(paths) {
      assert forall i | 0 <= i < |paths| :: paths[i] in paths && lenients[i] == paths[i];
      assert lenients == paths;
      DedupeUnique(paths);
    }
  }

  /** Canonicalising twice is canonicalising once, on every input. */
  lemma CanonicalizeIdempotent(paths: seq<string>)
    ensures Canonicalize(Canonicalize(paths)) == Canonicalize(paths)
  {
    CanonicalFixedPoint(paths);
    CanonicalFixedPoint(Canonicalize(paths));
  }

  // ---- The declared value of an Issue ----

  datatype RawItem = Null | Text(text: string) | OtherItem

  datatype RawFootprint = Missing | Items(items: seq<RawItem>) | NotAList

  datatype FootprintError = NotAListOfPaths | InvalidItem | InvalidPath(reason: PathError)

  function NormalizeItems(items: seq<RawItem>): Result<seq<string>, FootprintError> {
    if items == [] then Ok([])
    else
      var init := NormalizeItems(items[..|items| - 1]);
      var last := items[|items| - 1];
      if init.Err? then init
      else if last.Null? then init
      else if last.OtherItem? then Err(InvalidItem)
      else
        match Normalize(last.text)
        case Err(reason) => Err(InvalidPath(reason))
        case Ok(path) => Ok(init.value + [path])
  }

  function ParseFootprint(raw: RawFootprint): Result<seq<string>, FootprintError> {
    match raw
    case Missing => Ok([])
    case NotAList => Err(NotAListOfPaths)
    case Items(items) =>
      match NormalizeItems(items)
      case Err(error) => Err(error)
      case Ok(paths) => Ok(Dedupe(paths))
  }

  method ParseFootprintValue(raw: RawFootprint) returns (footprint: Result<seq<string>, FootprintError>)
    ensures footprint == ParseFootprint(raw)
  {
    if raw.Missing? {
      return Ok([]);
    }
    if raw.NotAList? {
      return Err(NotAListOfPaths);
    }
    var items := raw.items;
    var normalized: seq<string> := [];
    for i := 0 to |items|
      invariant NormalizeItems(items[..i]) == Ok(normalized)
    {
      assert items[..i + 1][..i] == items[..i];
      if items[i].Null? {
        continue;
      }
      if items[i].OtherItem? {
        ItemErrorStays(items, i + 1);
        return Err(InvalidItem);
      }
      var path := Normalize(items[i].text);
      if path.Err? {
        ItemErrorStays(items, i + 1);
        return Err(InvalidPath(path.error));
      }
      normalized := normalized + [path.value];
    }
    assert items[..|items|] == items;
    footprint := Ok(Dedupe(normalized));
  }

  lemma {:induction false} ItemErrorStays(items: seq<RawItem>, n: nat)
    requires n <= |items| && NormalizeItems(items[..n]).Err?
    ensures NormalizeItems(items) == NormalizeItems(items[..n])
    decreases |items| - n
  {
    if n == |items| {
      assert items[..n] == items;
    } else {
      assert items[..n + 1][..n] == items[..n];
      ItemErrorStays(items, n + 1);
    }
  }

  /** A footprint read from an Issue is canonical. */
  lemma ParsedIsCanonical(raw: RawFootprint)
    requires ParseFootprint(raw).Ok?
    ensures Canonical(ParseFootprint(raw).value)
  {
    if raw.Items? {
      NormalizedItems(raw.items);
    }
  }

  lemma {:induction false} NormalizedItems(items: seq<RawItem>)
    requires NormalizeItems(items).Ok?
    ensures forall p | p in NormalizeItems(items).value :: Lenient(p) == p
  {
    if items != [] {
      NormalizedItems(items[..|items| - 1]);
      var last := items[|items| - 1];
      if last.Text? {
        NormalizeAgain(last.text);
      }
    }
  }

  function Texts(paths: seq<string>): RawFootprint {
    Items(seq(|paths|, i requires 0 <= i < |paths| => Text(paths[i])))
  }

  lemma {:induction false} NormalizeTexts(paths: seq<string>)
    requires forall p | p in paths :: Lenient(p) == p
    ensures NormalizeItems(Texts(paths).items).Ok? <==> forall p | p in paths :: Normalize(p).Ok?
    ensures NormalizeItems(Texts(paths).items).Ok? ==> NormalizeItems(Texts(paths).items).value == paths
  {
    if paths != [] {
      var init, last := paths[..|paths| - 1], paths[|paths| - 1];
      assert paths == init + [last];
      assert Texts(paths).items[..|paths| - 1] == Texts(init).items;
      NormalizeTexts(init);
      assert last in paths;
    }
  }

  /** A canonical footprint written to an Issue reads back as itself exactly when each of
      its paths passes the strict check; otherwise the Issue no longer parses. */
  lemma WrittenFootprintReadsBackIff(footprint: seq<string>)
    requires Canonical(footprint)
    ensures ParseFootprint(Texts(footprint)).Ok? <==> forall p | p in footprint :: Normalize(p).Ok?
    ensures ParseFootprint(Texts(footprint)).Ok? ==> ParseFootprint(Texts(footprint)) == Ok(footprint)
  {
    NormalizeTexts(footprint);
    DedupeUnique(footprint);
  }

  // ---- Amending a held footprint ----

  // Paths named on the command line are checked strictly.
  function ValidateAddPaths(paths: seq<string>): Result<seq<string>, PathError> {
    if paths == [] then Ok([])
    else
      match Normalize(paths[0])
      case Err(reason) => Err(reason)
      case Ok(path) =>
        match ValidateAddPaths(paths[1..])
        case Err(reason) => Err(reason)
        case Ok(rest) => Ok([path] + rest)
  }

  function Amended(held: seq<string>, declared: seq<string>, added: seq<string>, changed: seq<string>): seq<string> {
    Canonicalize(held + declared + added + changed)
  }

  lemma LenientsConcat(xs: seq<string>, ys: seq<string>)
    ensures Lenients(xs + ys) == Lenients(xs) + Lenients(ys)
  {
  }

  lemma LenientMembers(paths: seq<string>, p: string)
    ensures p in Lenients(paths) <==> exists q :: q in paths && Lenient(q) == p
  {
    if q :| q in paths && Lenient(q) == p {
      var i :| 0 <= i < |paths| && paths[i] == q;
      assert Lenients(paths)[i] == p;
    }
    if i :| 0 <= i < |paths| && Lenients(paths)[i] == p {
      assert paths[i] in paths && Lenient(paths[i]) == p;
    }
  }

  lemma DedupeSuffix<T(!new)>(xs: seq<T>, ys: seq<T>)
    requires Unique(xs)
    ensures xs <= Dedupe(xs + ys)
    ensures forall p :: p in Dedupe(xs + ys)[|xs|..] <==> p in ys && p !in xs
  {
    DedupeUnique(xs);
    DedupePrefix(xs, ys);
    var whole := Dedupe(xs + ys);
    assert whole == xs + whole[|xs|..];
    forall p ensures p in whole[|xs|..] <==> p in ys && p !in xs {
      if i :| |xs| <= i < |whole| && whole[i] == p {
        assert p in whole && p !in xs;
      }
      if p in ys && p !in xs {
        assert p in whole;
      }
    }
  }

  lemma CanonicalLenients(paths: seq<string>)
    requires Canonical(paths)
    ensures Lenients(paths) == paths
  {
    assert forall i | 0 <= i < |paths| :: paths[i] in paths;
  }

  /** An amended footprint only grows: the held paths stay in front, in order, followed by
      exactly the new ones. */
  lemma AmendExtendsHeld(held: seq<string>, declared: seq<string>, added: seq<string>, changed: seq<string>)
    requires Canonical(held)
    ensures held <= Amended(held, declared, added, changed)
    ensures Canonical(Amended(held, declared, added, changed))
    ensures forall p :: p in Amended(held, declared, added, changed)[|held|..] <==>
      p !in held && exists q :: q in declared + added + changed && Lenient(q) == p
  {
    var rest := declared + added + changed;
    assert held + declared + added + changed == held + rest;
    CanonicalFixedPoint(held + rest);
    CanonicalLenients(held);
    LenientsConcat(held, rest);
    hide Lenients, Lenient, Dedupe;
    DedupeSuffix(held, Lenients(rest));
    forall p ensures p in Lenients(rest) <==> exists q :: q in rest && Lenient(q) == p {
      LenientMembers(rest, p);
    }
  }

  /** A retry after the Issue was already rewritten computes the same footprint again. */
  lemma AmendAgain(held: seq<string>, declared: seq<string>, added: seq<string>, changed: seq<string>)
    requires Canonical(held)
    ensures var amended := Amended(held, declared, added, changed);
      Amended(held, amended, added, changed) == amended
  {
    var amended := Amended(held, declared, added, changed);
    var more := added + changed;
    AmendExtendsHeld(held, declared, added, changed);
    var tail := amended[|held|..];
    assert amended == held + tail;
    LenientsAreKept(amended, more, held + declared + added + changed);
    CanonicalLenients(held);
    CanonicalLenients(amended);
    assert held + amended + added + changed == held + amended + more;
    LenientsConcat(held + amended, more);
    LenientsConcat(held, amended);
    hide Lenients, Lenient, Dedupe;
    DedupeRepeated(held, tail, Lenients(more));
    DedupeUnique(amended);
  }

  lemma LenientsAreKept(amended: seq<string>, more: seq<string>, inputs: seq<string>)
    requires amended == Canonicalize(inputs) && forall q | q in more :: q in inputs
    ensures forall p | p in Lenients(more) :: p in amended
  {
    CanonicalFixedPoint(inputs);
    forall p | p in Lenients(more) ensures p in amended {
      var i :| 0 <= i < |more| && Lenient(more[i]) == p;
      assert more[i] in more && more[i] in inputs;
    }
  }

  // Repeating a list after its own prefix adds nothing.
  lemma DedupeRepeated<T(!new)>(held: seq<T>, tail: seq<T>, more: seq<T>)
    requires forall x | x in more :: x in held + tail
    ensures Dedupe(held + (held + tail) + more) == Dedupe(held + tail)
  {
    DedupePrefix(held + (held + tail), more);
    DedupeInsertKnown(held, held, tail);
    assert held + (held + tail) == held + held + tail;
  }

  lemma {:induction false} DedupeInsertKnown<T(!new)>(xs: seq<T>, known: seq<T>, ys: seq<T>)
    requires forall x | x in known :: x in xs
    ensures Dedupe(xs + known + ys) == Dedupe(xs + ys)
  {
    if ys == [] {
      DedupePrefix(xs, known);
      assert xs + known + ys == xs + known && xs + ys == xs;
    } else {
      DedupeInsertKnown(xs, known, ys[..|ys| - 1]);
      assert (xs + known + ys)[..|xs + known + ys| - 1] == xs + known + ys[..|ys| - 1];
      assert (xs + ys)[..|xs + ys| - 1] == xs + ys[..|ys| - 1];
    }
  }

  /** A crash after the Issue write followed by a retry ends in the same footprint exactly
      when every input path is still strictly valid once normalised. */
  lemma AmendRetryIff(held: seq<string>, declared: seq<string>, added: seq<string>, changed: seq<string>)
    requires Canonical(held)
    ensures var amended := Amended(held, declared, added, changed);
      var reread := ParseFootprint(Texts(amended));
      && (reread.Ok? <==> forall p | p in held + declared + added + changed :: Normalize(Lenient(p)).Ok?)
      && (reread.Ok? ==> Amended(held, reread.value, added, changed) == amended)
  {
    var inputs := held + declared + added + changed;
    var amended := Canonicalize(inputs);
    CanonicalFixedPoint(inputs);
    WrittenFootprintReadsBackIff(amended);
    AmendAgain(held, declared, added, changed);
    if forall p | p in inputs :: Normalize(Lenient(p)).Ok? {
      forall p | p in amended ensures Normalize(p).Ok? {
        var q :| q in inputs && Lenient(q) == p;
      }
    } else {
      var q :| q in inputs && Normalize(Lenient(q)).Err?;
      assert Lenient(q) in amended;
    }
  }

  /** A changed file named like a drive makes the rewritten Issue unreadable. */
  lemma DriveLikeFileBreaksRetry()
    ensures ParseFootprint(Texts(Amended(["a"], ["a"], [], ["C:x"]))).Err?
  {
    hide Canonicalize, ParseFootprint;
    NormalizeIsNotIdempotent();
    assert Canonical(["a"]) by {
      OneNameIsCanonical("a");
    }
    AmendRetryIff(["a"], ["a"], [], ["C:x"]);
    assert "C:x" in ["a"] + ["a"] + [] + ["C:x"];
  }

  lemma OneNameIsCanonical(name: string)
    requires IsName(name) && '\\' !in name && !IsDrive(name)
    ensures Canonical([name])
  {
    SlashedKeepsClean(name);
    SplitPart(name, "");
    NamesWalkToThemselves(Place(0, []), [name]);
    NormalizeMeaning(name);
    assert Resolve(name) == Place(0, [name]);
    assert name[0] != '/' && Slashed(name) == name;
    JoinOne(name);
  }

  lemma TwoNamesAreCanonical(first: string, second: string)
    requires IsName(first) && '\\' !in first && !IsDrive(first)
    requires IsName(second) && '\\' !in second && !IsDrive(second)
    requires first != second
    ensures Canonical([first, second])
  {
    OneNameIsCanonical(first);
    OneNameIsCanonical(second);
    assert first in [first] && second in [second];
  }
}
