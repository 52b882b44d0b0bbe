/** Object keys of the cache: `<app>/<session>/<object>`, their two parsers, their printed
    forms, and the string test that decides which stored keys a filter covers. */
module ObjectKeys {
  import opened Wrappers

  const WILDCARD: string := "*"

  datatype ObjectKey = ObjectKey(app: string, session: string, id: Option<string>)

  // ---- Splitting and joining -------------------------------------------------------------

  /** Every piece between separators, empty ones included; the empty string has one piece. */
  function Split(s: string, sep: char): (parts: seq<string>)
    ensures |parts| >= 1
    ensures forall i :: 0 <= i < |parts| ==> sep !in parts[i]
  {
    if s == [] then [""]
    else
      var rest := Split(s[1..], sep);
      if s[0] == sep then [""] + rest else [[s[0]] + rest[0]] + rest[1..]
  }

  function Join(parts: seq<string>, sep: char): string
  {
    if parts == [] then ""
    else if |parts| == 1 then parts[0]
    else parts[0] + [sep] + Join(parts[1..], sep)
  }

  lemma {:induction false} JoinOfSplit(s: string, sep: char)
    ensures Join(Split(s, sep), sep) == s
  {
    if s != [] {
      var rest := Split(s[1..], sep);
      JoinOfSplit(s[1..], sep);
      if s[0] == sep {
        assert ([""] + rest)[1..] == rest;
      } else {
        var parts := [[s[0]] + rest[0]] + rest[1..];
        assert parts[1..] == rest[1..];
        if |rest| > 1 {
          assert Join(parts, sep) == [s[0]] + (rest[0] + [sep] + Join(rest[1..], sep));
        }
      }
    }
  }

  /** A piece without separators followed by a separator is exactly the first piece. */
  lemma {:induction false} SplitAfterPiece(piece: string, rest: string, sep: char)
    requires sep !in piece
    ensures Split(piece + [sep] + rest, sep) == [piece] + Split(rest, sep)
  {
    var s := piece + [sep] + rest;
    if piece == [] {
      assert s[1..] == rest;
    } else {
      SplitAfterPiece(piece[1..], rest, sep);
      assert s[1..] == piece[1..] + [sep] + rest;
      assert [piece[0]] + piece[1..] == piece;
    }
  }

  lemma {:induction false} SplitOfPiece(piece: string, sep: char)
    requires sep !in piece
    ensures Split(piece, sep) == [piece]
  {
    if piece != [] {
      SplitOfPiece(piece[1..], sep);
      assert [piece[0]] + piece[1..] == piece;
    }
  }

  lemma {:induction false} SplitOfJoin(parts: seq<string>, sep: char)
    requires parts != []
    requires forall i :: 0 <= i < |parts| ==> sep !in parts[i]
    ensures Split(Join(parts, sep), sep) == parts
  {
    if |parts| == 1 {
      SplitOfPiece(parts[0], sep);
    } else {
      SplitOfJoin(parts[1..], sep);
      SplitAfterPiece(parts[0], Join(parts[1..], sep), sep);
      assert [parts[0]] + parts[1..] == parts;
    }
  }

  // ---- Parsing and printing --------------------------------------------------------------

  predicate HasDotDot(s: string) {
    exists i :: 0 <= i < |s| - 1 && s[i] == '.' && s[i + 1] == '.'
  }

  predicate ValidPart(part: string) {
    part != "" && !HasDotDot(part) && '\\' !in part
  }

  /** Parse a request path; `*` may stand for the session of a two-part path only. */
  function FromPath(path: string): Result<ObjectKey>
  {
    var parts := Split(path, '/');
    if exists i :: 0 <= i < |parts| && (!ValidPart(parts[i]) || (parts[i] == WILDCARD && i != 1)) then Err
    else if |parts| == 2 then Ok(ObjectKey(parts[0], parts[1], None))
    else if |parts| == 3 && parts[1] != WILDCARD then Ok(ObjectKey(parts[0], parts[1], Some(parts[2])))
    else Err
  }

  /** Parse a stored key: three parts, with no rule about `*`. */
  function TryFrom(key: string): Result<ObjectKey>
  {
    var parts := Split(key, '/');
    if |parts| != 3 || exists i :: 0 <= i < |parts| && !ValidPart(parts[i]) then Err
    else Ok(ObjectKey(parts[0], parts[1], Some(parts[2])))
  }

  predicate IsAllSessions(key: ObjectKey) { key.session == WILDCARD }

  function ToKey(key: ObjectKey): Option<string>
  {
    if IsAllSessions(key) || key.id.None? then None
    else Some(key.app + "/" + key.session + "/" + key.id.value)
  }

  function ToPrefix(key: ObjectKey): string
  {
    if IsAllSessions(key) then key.app else key.app + "/" + key.session
  }

  function Print(key: ObjectKey): string
  {
    match ToKey(key)
    case Some(full) => full
    case None => ToPrefix(key)
  }

  /** The string test used by deletes, by eviction and by the metadata map. */
  predicate Matches(key: ObjectKey, stored: string)
  {
    if IsAllSessions(key) then key.app + "/" <= stored
    else match ToKey(key)
      case Some(full) => stored == full
      case None => ToPrefix(key) + "/" <= stored
  }

  /** The key a put stores under: the path's own object id, or a generated one. */
  function PutKey(path: string, generated: string): Result<string>
  {
    match FromPath(path)
    case Err => Err
    case Ok(key) =>
      var full := if key.id.Some? then key else key.(id := Some(generated));
      match ToKey(full)
      case None => Err
      case Some(text) => Ok(text)
  }

  function WithObjectId(key: ObjectKey, id: string): Result<ObjectKey>
  {
    if IsAllSessions(key) || !ValidPart(id) || '/' in id then Err
    else Ok(key.(id := Some(id)))
  }

  // ---- What the string test means --------------------------------------------------------

  /** Which keys a filter is meant to cover, component by component. */
  predicate Covers(filter: ObjectKey, key: ObjectKey)
  {
    && filter.app == key.app
    && (filter.session == WILDCARD
        || (filter.session == key.session && (filter.id.None? || filter.id == key.id)))
  }

  lemma ThreeParts(a: string, b: string, c: string)
    ensures Join([a, b, c], '/') == a + "/" + b + "/" + c
  {
    assert [a, b, c][1..] == [b, c];
    assert [b, c][1..] == [c];
    assert Join([b, c], '/') == b + ['/'] + c;
    assert a + ['/'] + (b + ['/'] + c) == a + "/" + b + "/" + c;
  }

  lemma TwoParts(a: string, b: string)
    ensures Join([a, b], '/') == a + "/" + b
  {
    assert [a, b][1..] == [b];
  }

  /** A parsed stored key is its own text. */
  lemma TryFromText(stored: string)
    requires TryFrom(stored).Ok?
    ensures var k := TryFrom(stored).value;
      && k.id.Some?
      && stored == k.app + "/" + k.session + "/" + k.id.value
      && '/' !in k.app && '/' !in k.session && '/' !in k.id.value
  {
    var parts := Split(stored, '/');
    JoinOfSplit(stored, '/');
    ThreeParts(parts[0], parts[1], parts[2]);
    assert parts == [parts[0], parts[1], parts[2]];
  }

  /** `piece/` is a prefix of `first/rest` only when the pieces are equal: a test never
      crosses a separator. */
  lemma PrefixIsPiece(piece: string, first: string, rest: string)
    requires '/' !in piece && '/' !in first
    ensures piece + "/" <= first + "/" + rest <==> piece == first
  {
    var text := first + "/" + rest;
    if piece + "/" <= text {
      var n := |piece|;
      assert text[n] == (piece + "/")[n] == '/';
      assert |first| <= n;
      assert forall i :: 0 <= i < n ==> piece[i] == (piece + "/")[i] == text[i];
      assert text[|first|] == '/';
      assert n == |first|;
    }
  }

  /** The same for a two-part prefix. */
  lemma PrefixIsTwoPieces(a: string, b: string, x: string, y: string, rest: string)
    requires '/' !in a && '/' !in b && '/' !in x && '/' !in y
    ensures a + "/" + b + "/" <= x + "/" + (y + "/" + rest) <==> a == x && b == y
  {
    var text := x + "/" + (y + "/" + rest);
    PrefixIsPiece(a, x, y + "/" + rest);
    PrefixIsPiece(b, y, rest);
    if a + "/" + b + "/" <= text {
      assert a + "/" <= a + "/" + b + "/";
      assert a == x;
      var n := |a| + 1;
      assert (a + "/" + b + "/")[n..] == b + "/";
      assert text[n..] == y + "/" + rest;
    }
    if a == x && b == y {
      assert text == a + "/" + b + "/" + rest;
    }
  }

  /** The string test of any request filter is the componentwise one, on every stored key. */
  lemma MatchesIsComponentwise(path: string, stored: string)
    requires FromPath(path).Ok? && TryFrom(stored).Ok?
    ensures Matches(FromPath(path).value, stored) <==> Covers(FromPath(path).value, TryFrom(stored).value)
  {
    var f, k := FromPath(path).value, TryFrom(stored).value;
    var parts := Split(path, '/');
    TryFromText(stored);
    var rest := k.session + "/" + k.id.value;
    assert stored == k.app + "/" + rest;
    if IsAllSessions(f) {
      PrefixIsPiece(f.app, k.app, rest);
    } else if f.id.Some? {
      FullKeysEqual(f, k);
    } else {
      PrefixIsTwoPieces(f.app, f.session, k.app, k.session, k.id.value);
    }
  }

  lemma FullKeysEqual(f: ObjectKey, k: ObjectKey)
    requires f.id.Some? && k.id.Some?
    requires '/' !in f.app && '/' !in f.session && '/' !in f.id.value
    requires '/' !in k.app && '/' !in k.session && '/' !in k.id.value
    ensures f.app + "/" + f.session + "/" + f.id.value == k.app + "/" + k.session + "/" + k.id.value
       <==> f == k
  {
    ThreeParts(f.app, f.session, f.id.value);
    ThreeParts(k.app, k.session, k.id.value);
    var a, b := [f.app, f.session, f.id.value], [k.app, k.session, k.id.value];
    SplitOfJoin(a, '/');
    SplitOfJoin(b, '/');
    if Join(a, '/') == Join(b, '/') {
      assert a == b;
      assert a[0] == b[0] && a[1] == b[1] && a[2] == b[2];
    }
  }

  // ---- Round trips -----------------------------------------------------------------------

  /** A parsed path prints back to itself exactly when its session is not the wildcard. */
  lemma PrintOfFromPath(path: string)
    requires FromPath(path).Ok?
    ensures Print(FromPath(path).value) == path <==> FromPath(path).value.session != WILDCARD
  {
    var f := FromPath(path).value;
    var parts := Split(path, '/');
    JoinOfSplit(path, '/');
    if |parts| == 2 {
      TwoParts(parts[0], parts[1]);
      assert parts == [parts[0], parts[1]];
      assert path == parts[0] + "/" + parts[1];
    } else {
      ThreeParts(parts[0], parts[1], parts[2]);
      assert parts == [parts[0], parts[1], parts[2]];
    }
  }

  /** Components that a parser accepts. */
  predicate Clean(part: string) { ValidPart(part) && '/' !in part && part != WILDCARD }

  /** Printing a key of clean components and parsing the text gives the key back; a full key
      also through the parser of stored keys. */
  lemma FromPathOfPrint(key: ObjectKey)
    requires Clean(key.app) && Clean(key.session) && (key.id.Some? ==> Clean(key.id.value))
    ensures FromPath(Print(key)) == Ok(key)
    ensures key.id.Some? ==> TryFrom(Print(key)) == Ok(key)
  {
    if key.id.Some? {
      var parts := [key.app, key.session, key.id.value];
      ThreeParts(key.app, key.session, key.id.value);
      SplitOfJoin(parts, '/');
    } else {
      TwoParts(key.app, key.session);
      SplitOfJoin([key.app, key.session], '/');
    }
  }

  /** Only such paths are accepted: clean components, or a wildcard in place of the session of a path
      that names no object. */
  lemma AcceptedPaths(path: string)
    requires FromPath(path).Ok?
    ensures var key := FromPath(path).value;
      && Clean(key.app) && (Clean(key.session) || (key.session == WILDCARD && key.id.None?))
      && (key.id.Some? ==> Clean(key.id.value))
  {
    var parts := Split(path, '/');
    assert forall i :: 0 <= i < |parts| ==> ValidPart(parts[i]) && '/' !in parts[i];
  }

  /** Such a path is accepted: every application has one, and it prints as something else. */
  lemma WildcardPath(app: string)
    requires Clean(app)
    ensures FromPath(app + "/" + WILDCARD) == Ok(ObjectKey(app, WILDCARD, None))
    ensures Print(ObjectKey(app, WILDCARD, None)) != app + "/" + WILDCARD
  {
    var path := app + "/" + WILDCARD;
    TwoParts(app, WILDCARD);
    SplitOfJoin([app, WILDCARD], '/');
    PrintOfFromPath(path);
  }

  // ---- Keys that reach the metadata map --------------------------------------------------

  /** A stored key whose session is not the wildcard. */
  predicate ProperKey(stored: string)
  {
    TryFrom(stored).Ok? && TryFrom(stored).value.session != WILDCARD
  }

  lemma ProperFromParts(app: string, session: string, name: string)
    requires ValidPart(app) && ValidPart(session) && ValidPart(name)
    requires '/' !in app && '/' !in session && '/' !in name
    ensures TryFrom(app + "/" + session + "/" + name) == Ok(ObjectKey(app, session, Some(name)))
  {
    ThreeParts(app, session, name);
    SplitOfJoin([app, session, name], '/');
  }

  /** Every key a put stores under is proper: a wildcard path is turned away before a lock. */
  lemma PutKeyIsProper(path: string, generated: string)
    requires ValidPart(generated) && '/' !in generated
    ensures PutKey(path, generated).Ok? ==> ProperKey(PutKey(path, generated).value)
    ensures FromPath(path).Ok? && FromPath(path).value.session == WILDCARD ==> PutKey(path, generated).Err?
  {
    if PutKey(path, generated).Ok? {
      var parts := Split(path, '/');
      var key := FromPath(path).value;
      ProperFromParts(parts[0], parts[1], if key.id.Some? then parts[2] else generated);
    }
  }

  /** A put is accepted exactly under a path with a session other than the wildcard. It is stored under
      that very path if it names an object, otherwise under the path and the generated id. */
  lemma PutKeyIsPath(path: string, generated: string)
    ensures PutKey(path, generated).Ok? <==> FromPath(path).Ok? && FromPath(path).value.session != WILDCARD
    ensures PutKey(path, generated).Ok? ==>
      PutKey(path, generated).value ==
      if |Split(path, '/')| == 3 then path else path + "/" + generated
  {
    if FromPath(path).Ok? {
      var parts := Split(path, '/');
      JoinOfSplit(path, '/');
      if |parts| == 2 {
        TwoParts(parts[0], parts[1]);
        assert parts == [parts[0], parts[1]];
      } else {
        ThreeParts(parts[0], parts[1], parts[2]);
        assert parts == [parts[0], parts[1], parts[2]];
      }
    }
  }

  /** No backslash and no two dots in a row. */
  predicate SafeText(s: string)
  {
    '\\' !in s && forall i :: 0 <= i < |s| - 1 ==> s[i] != '.' || s[i + 1] != '.'
  }

  lemma SafeWithSlash(a: string, b: string)
    requires SafeText(a) && SafeText(b)
    ensures SafeText(a + ['/'] + b)
  {
    var all := a + ['/'] + b;
    forall i | 0 <= i < |all| - 1 ensures all[i] != '.' || all[i + 1] != '.' {
      if i + 1 < |a| {
        assert all[i] == a[i] && all[i + 1] == a[i + 1];
      } else if i > |a| {
        var j := i - |a| - 1;
        assert all[i] == b[j] && all[i + 1] == b[j + 1];
      }
    }
  }

  lemma {:induction false} SafeJoined(parts: seq<string>)
    requires parts != [] && forall i :: 0 <= i < |parts| ==> ValidPart(parts[i])
    ensures SafeText(Join(parts, '/'))
  {
    assert ValidPart(parts[0]);
    if |parts| > 1 {
      SafeJoined(parts[1..]);
      SafeWithSlash(parts[0], Join(parts[1..], '/'));
    }
  }

  /** No path and no stored key that is accepted has two dots in a row or a backslash in it, and every
      component has at least one character. */
  lemma AcceptedIsSafe(path: string)
    requires FromPath(path).Ok? || TryFrom(path).Ok?
    ensures SafeText(path) && forall i :: 0 <= i < |Split(path, '/')| ==> Split(path, '/')[i] != ""
  {
    JoinOfSplit(path, '/');
    SafeJoined(Split(path, '/'));
  }

  /** Ids added later are checked well enough to keep the key proper. */
  lemma WithObjectIdIsProper(path: string, id: string)
    requires FromPath(path).Ok? && WithObjectId(FromPath(path).value, id).Ok?
    ensures var k := WithObjectId(FromPath(path).value, id).value;
      ToKey(k).Some? && ProperKey(ToKey(k).value)
  {
    var parts := Split(path, '/');
    ProperFromParts(parts[0], parts[1], id);
  }

  /** An id is added exactly to a path with a session other than the wildcard, when it is one component;
      the key is then that of the path with the id behind it. */
  lemma WithObjectIdMeans(path: string, id: string)
    requires FromPath(path).Ok? && FromPath(path).value.id.None?
    ensures WithObjectId(FromPath(path).value, id).Ok? <==>
      FromPath(path).value.session != WILDCARD && ValidPart(id) && '/' !in id
    ensures WithObjectId(FromPath(path).value, id).Ok? ==>
      ToKey(WithObjectId(FromPath(path).value, id).value) == Some(path + "/" + id)
  {
    var parts := Split(path, '/');
    JoinOfSplit(path, '/');
    TwoParts(parts[0], parts[1]);
    assert parts == [parts[0], parts[1]];
  }

  /** A stored key used as a filter covers itself alone exactly when it is proper; with a
      wildcard session it would cover its whole application. */
  lemma StoredKeyMatchesItself(stored: string)
    requires TryFrom(stored).Ok?
    ensures ProperKey(stored) <==> forall other :: Matches(TryFrom(stored).value, other) <==> other == stored
  {
    var k := TryFrom(stored).value;
    TryFromText(stored);
    if !ProperKey(stored) {
      assert Matches(k, k.app + "/");
      assert |k.app + "/"| < |stored|;
    }
  }
}
