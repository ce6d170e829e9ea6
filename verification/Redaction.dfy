/** Redacting audit payloads before they are stored and hashed. */
module Redaction {
  import opened Json
  import opened Wrappers

  const SENSITIVE_KEYS :=
    {"api_key", "apikey", "authorization", "access_token", "refresh_token", "secret", "token", "password"}

  const REDACTED := Str("[REDACTED]")

  /** A dot path, split into its parts. */
  type Path = seq<string>

  function LowerChar(c: char): char {
    if 'A' <= c <= 'Z' then (c as int - 'A' as int + 'a' as int) as char else c
  }

  function Lower(s: string): string {
    if s == [] then [] else [LowerChar(s[0])] + Lower(s[1..])
  }

  predicate Sensitive(key: string) { Lower(key) in SENSITIVE_KEYS }

  /** _redact_sensitive_keys. */
  function RedactSensitive(v: Json): Json {
    match v
    case Obj(fields) => Obj(map k | k in fields :: if Sensitive(k) then REDACTED else RedactSensitive(fields[k]))
    case Arr(items) => Arr(seq(|items|, i requires 0 <= i < |items| => RedactSensitive(items[i])))
    case _ => v
  }

  /** The value _redact_path leaves: a path applies to every item of a list, and ends where a key is missing. */
  function RedactPath(v: Json, path: Path): Json
    decreases v
  {
    if path == [] then v
    else
      match v
      case Arr(items) => Arr(seq(|items|, i requires 0 <= i < |items| => RedactPath(items[i], path)))
      case Obj(fields) =>
        if path[0] !in fields then v
        else if |path| == 1 then Obj(fields[path[0] := REDACTED])
        else Obj(fields[path[0] := RedactPath(fields[path[0]], path[1..])])
      case _ => v
  }

  /** Whether it finds anything to redact. */
  predicate Matches(v: Json, path: Path)
    decreases v
  {
    path != []
    && match v
       case Arr(items) => exists i :: 0 <= i < |items| && Matches(items[i], path)
       case Obj(fields) => path[0] in fields && (|path| == 1 || Matches(fields[path[0]], path[1..]))
       case _ => false
  }

  /** The first k configured paths, one after the other. */
  function RedactPaths(v: Json, paths: seq<Path>): Json {
    if paths == [] then v else RedactPath(RedactPaths(v, paths[..|paths| - 1]), paths[|paths| - 1])
  }

  function Redacted(payload: Json, paths: seq<Path>): Json {
    RedactPaths(RedactSensitive(payload), paths)
  }

  /** A place in a value, as its path text spells it: keys and list positions from the root. */
  datatype Step = Key(k: string) | At(i: nat)

  type Location = seq<Step>

  /** _collect_sensitive_paths. */
  function SensitiveLocations(v: Json): set<Location> {
    match v
    case Obj(fields) =>
      (set k | k in fields && fields[k] == REDACTED && Sensitive(k) :: [Key(k)])
      + (set k, l | k in fields && l in SensitiveLocations(fields[k]) :: [Key(k)] + l)
    case Arr(items) => set i: nat, l | i < |items| && l in SensitiveLocations(items[i]) :: [At(i)] + l
    case _ => {}
  }

  /** redact_payload; `hit` are the configured paths and `places` the sensitive keys reported as redacted. */
  method RedactPayload(payload: Json, paths: seq<Path>) returns (r: Json, hit: set<Path>, places: set<Location>)
    ensures r == Redacted(payload, paths)
    ensures forall l :: l in places <==> Outermost(payload, l) && Present(r, l)
    ensures forall p :: p in hit <==>
      exists i :: 0 <= i < |paths| && paths[i] == p && Matches(RedactPaths(RedactSensitive(payload), paths[..i]), p)
  {
    hide RedactPath, RedactSensitive, SensitiveLocations, Matches, Outermost, Present;
    r, hit, places := RedactSensitive(payload), {}, {};
    for i := 0 to |paths|
      invariant r == RedactPaths(RedactSensitive(payload), paths[..i])
      invariant forall p :: p in hit <==>
        exists j :: 0 <= j < i && paths[j] == p && Matches(RedactPaths(RedactSensitive(payload), paths[..j]), p)
    {
      assert paths[..i + 1][..i] == paths[..i];
      if Matches(r, paths[i]) {
        hit := hit + {paths[i]};
      }
      r := RedactPath(r, paths[i]);
    }
    assert paths[..|paths|] == paths;
    places := SensitiveLocations(r);
    forall l ensures l in places <==> Outermost(payload, l) && Present(r, l) { ReportedPlaces(payload, paths, l); }
  }

  // ------------------------------------------------------------------ what is hidden

  /** Every value under a sensitive key, at any depth, is redacted. */
  ghost predicate Hidden(v: Json) {
    match v
    case Obj(fields) => forall k :: k in fields ==> if Sensitive(k) then fields[k] == REDACTED else Hidden(fields[k])
    case Arr(items) => forall i :: 0 <= i < |items| ==> Hidden(items[i])
    case _ => true
  }

  /** Every value the path leads to is redacted. */
  ghost predicate Covered(v: Json, path: Path)
    decreases v
  {
    path == []
    || match v
       case Arr(items) => forall i :: 0 <= i < |items| ==> Covered(items[i], path)
       case Obj(fields) => path[0] in fields ==>
         if |path| == 1 then fields[path[0]] == REDACTED else Covered(fields[path[0]], path[1..])
       case _ => true
  }

  lemma {:induction false} SensitiveIsHidden(v: Json)
    ensures Hidden(RedactSensitive(v))
    ensures Hidden(v) ==> RedactSensitive(v) == v
  {
    match v
    case Obj(fields) =>
      forall k | k in fields
        ensures Hidden(RedactSensitive(fields[k])) && (Hidden(fields[k]) ==> RedactSensitive(fields[k]) == fields[k])
      {
        SensitiveIsHidden(fields[k]);
      }
    case Arr(items) =>
      forall i | 0 <= i < |items|
        ensures Hidden(RedactSensitive(items[i])) && (Hidden(items[i]) ==> RedactSensitive(items[i]) == items[i])
      {
        SensitiveIsHidden(items[i]);
      }
    case _ =>
  }

  lemma {:induction false} PathsKeepHidden(v: Json, path: Path)
    requires Hidden(v)
    ensures Hidden(RedactPath(v, path))
    decreases v
  {
    match v
    case Obj(fields) =>
      if path != [] && path[0] in fields && |path| > 1 {
        PathsKeepHidden(fields[path[0]], path[1..]);
      }
    case Arr(items) =>
      forall i | 0 <= i < |items| ensures Hidden(RedactPath(items[i], path)) { PathsKeepHidden(items[i], path); }
    case _ =>
  }

  lemma {:induction false} PathIsCovered(v: Json, path: Path)
    ensures Covered(RedactPath(v, path), path)
    ensures Covered(v, path) ==> RedactPath(v, path) == v
    decreases v
  {
    match v
    case Obj(fields) =>
      if path != [] && path[0] in fields && |path| > 1 {
        PathIsCovered(fields[path[0]], path[1..]);
      }
    case Arr(items) =>
      forall i | 0 <= i < |items|
        ensures Covered(RedactPath(items[i], path), path)
        && (Covered(items[i], path) ==> RedactPath(items[i], path) == items[i])
      {
        PathIsCovered(items[i], path);
      }
    case _ =>
  }

  /** A later path cannot uncover what an earlier one covered. */
  lemma {:induction false} PathsKeepCovered(v: Json, path: Path, other: Path)
    requires Covered(v, path)
    ensures Covered(RedactPath(v, other), path)
    decreases v
  {
    match v
    case Obj(fields) =>
      if path != [] && other != [] && other[0] in fields && path[0] == other[0] && |path| > 1 && |other| > 1 {
        PathsKeepCovered(fields[path[0]], path[1..], other[1..]);
      }
    case Arr(items) =>
      forall i | 0 <= i < |items| ensures Covered(RedactPath(items[i], other), path) {
        PathsKeepCovered(items[i], path, other);
      }
    case _ =>
  }

  /** After redaction every value under a sensitive key and every value at a configured path is redacted,
      whatever order the paths are configured in. */
  lemma {:induction false} RedactionHides(payload: Json, paths: seq<Path>)
    ensures Hidden(Redacted(payload, paths))
    ensures forall p :: p in paths ==> Covered(Redacted(payload, paths), p)
  {
    if paths == [] {
      SensitiveIsHidden(payload);
    } else {
      var n := |paths| - 1;
      RedactionHides(payload, paths[..n]);
      var before := Redacted(payload, paths[..n]);
      PathsKeepHidden(before, paths[n]);
      PathIsCovered(before, paths[n]);
      forall p | p in paths ensures Covered(Redacted(payload, paths), p) {
        if p in paths[..n] { PathsKeepCovered(before, p, paths[n]); }
      }
    }
  }

  lemma {:induction false} CoveredIsFixed(v: Json, paths: seq<Path>)
    requires forall p :: p in paths ==> Covered(v, p)
    ensures RedactPaths(v, paths) == v
  {
    if paths == [] {
    } else {
      var n := |paths| - 1;
      CoveredIsFixed(v, paths[..n]);
      assert paths[n] in paths;
      PathIsCovered(v, paths[n]);
    }
  }

  /** Redacting a redacted payload changes nothing. */
  lemma RedactionIsIdempotent(payload: Json, paths: seq<Path>)
    ensures Redacted(Redacted(payload, paths), paths) == Redacted(payload, paths)
  {
    RedactionHides(payload, paths);
    SensitiveIsHidden(Redacted(payload, paths));
    CoveredIsFixed(Redacted(payload, paths), paths);
  }

  // ------------------------------------------------------------------ and nothing else changes

  /** b is a with some values replaced by the redaction mark. */
  ghost predicate Masks(a: Json, b: Json) {
    b == REDACTED
    || match (a, b)
       case (Obj(x), Obj(y)) => x.Keys == y.Keys && forall k :: k in x ==> Masks(x[k], y[k])
       case (Arr(x), Arr(y)) => |x| == |y| && forall i :: 0 <= i < |x| ==> Masks(x[i], y[i])
       case _ => a == b
  }

  lemma {:induction false} MasksItself(v: Json)
    ensures Masks(v, v)
  {
    match v
    case Obj(fields) => forall k | k in fields ensures Masks(fields[k], fields[k]) { MasksItself(fields[k]); }
    case Arr(items) => forall i | 0 <= i < |items| ensures Masks(items[i], items[i]) { MasksItself(items[i]); }
    case _ =>
  }

  lemma {:induction false} SensitiveMasks(v: Json)
    ensures Masks(v, RedactSensitive(v))
  {
    match v
    case Obj(fields) =>
      forall k | k in fields ensures Masks(fields[k], RedactSensitive(fields[k])) { SensitiveMasks(fields[k]); }
    case Arr(items) =>
      forall i | 0 <= i < |items| ensures Masks(items[i], RedactSensitive(items[i])) { SensitiveMasks(items[i]); }
    case _ =>
  }

  lemma {:induction false} PathMasks(a: Json, b: Json, path: Path)
    requires Masks(a, b)
    ensures Masks(a, RedactPath(b, path))
    decreases b
  {
    match (a, b)
    case (Obj(x), Obj(y)) =>
      if path != [] && path[0] in y && |path| > 1 {
        PathMasks(x[path[0]], y[path[0]], path[1..]);
      }
    case (Arr(x), Arr(y)) =>
      forall i | 0 <= i < |y| ensures Masks(x[i], RedactPath(y[i], path)) { PathMasks(x[i], y[i], path); }
    case _ =>
  }

  /** Redaction only ever replaces values by the mark; keys, lists and all other values stay. */
  lemma {:induction false} RedactionOnlyMasks(payload: Json, paths: seq<Path>)
    ensures Masks(payload, Redacted(payload, paths))
  {
    if paths == [] {
      SensitiveMasks(payload);
    } else {
      var n := |paths| - 1;
      RedactionOnlyMasks(payload, paths[..n]);
      PathMasks(payload, Redacted(payload, paths[..n]), paths[n]);
    }
  }

  /** A configured path is reported exactly if the payload has a value there to redact. */
  lemma {:induction false} UnmatchedIsUntouched(v: Json, path: Path)
    requires !Matches(v, path)
    ensures RedactPath(v, path) == v && Covered(v, path)
    decreases v
  {
    match v
    case Obj(fields) =>
      if path != [] && path[0] in fields {
        UnmatchedIsUntouched(fields[path[0]], path[1..]);
      }
    case Arr(items) =>
      if path != [] {
        forall i | 0 <= i < |items| ensures RedactPath(items[i], path) == items[i] && Covered(items[i], path) {
          UnmatchedIsUntouched(items[i], path);
        }
      }
    case _ =>
  }

  // ------------------------------------------------------------------ what is reported

  /** The location is that of a sensitive key with no sensitive key above it. */
  ghost predicate Outermost(v: Json, l: Location) {
    l != []
    && match v
       case Obj(fields) =>
         && l[0].Key? && l[0].k in fields
         && (if |l| == 1 then Sensitive(l[0].k) else !Sensitive(l[0].k) && Outermost(fields[l[0].k], l[1..]))
       case Arr(items) => l[0].At? && l[0].i < |items| && Outermost(items[l[0].i], l[1..])
       case _ => false
  }

  /** The value has something at the location. */
  ghost predicate Present(v: Json, l: Location) {
    l == []
    || match v
       case Obj(fields) => l[0].Key? && l[0].k in fields && Present(fields[l[0].k], l[1..])
       case Arr(items) => l[0].At? && l[0].i < |items| && Present(items[l[0].i], l[1..])
       case _ => false
  }

  /** The mark stands at the location, under a sensitive key. */
  ghost predicate Marked(v: Json, l: Location) {
    l != []
    && match v
       case Obj(fields) =>
         && l[0].Key? && l[0].k in fields
         && (if |l| == 1 then Sensitive(l[0].k) && fields[l[0].k] == REDACTED else Marked(fields[l[0].k], l[1..]))
       case Arr(items) => l[0].At? && l[0].i < |items| && Marked(items[l[0].i], l[1..])
       case _ => false
  }

  lemma {:induction false} CollectedAreMarked(v: Json, l: Location)
    ensures l in SensitiveLocations(v) <==> Marked(v, l)
  {
    if l == [] {
    } else {
      match v
      case Obj(fields) =>
        forall k | k in fields ensures l[1..] in SensitiveLocations(fields[k]) <==> Marked(fields[k], l[1..]) {
          CollectedAreMarked(fields[k], l[1..]);
        }
        KeyedLocations(fields, l);
      case Arr(items) =>
        forall i | 0 <= i < |items| ensures l[1..] in SensitiveLocations(items[i]) <==> Marked(items[i], l[1..]) {
          CollectedAreMarked(items[i], l[1..]);
        }
        ListedLocations(items, l);
      case _ =>
    }
  }

  lemma KeyedLocations(fields: map<string, Json>, l: Location)
    requires l != []
    ensures l in SensitiveLocations(Obj(fields)) <==>
      (&& l[0].Key? && l[0].k in fields
       && ((|l| == 1 && fields[l[0].k] == REDACTED && Sensitive(l[0].k))
           || l[1..] in SensitiveLocations(fields[l[0].k])))
  {
    hide Sensitive;
    assert |l| == 1 ==> l == [l[0]];
    assert l == [l[0]] + l[1..];
    assert forall k: string, t: Location :: ([Key(k)] + t)[1..] == t;
  }

  lemma ListedLocations(items: seq<Json>, l: Location)
    requires l != []
    ensures l in SensitiveLocations(Arr(items)) <==>
      l[0].At? && l[0].i < |items| && l[1..] in SensitiveLocations(items[l[0].i])
  {
    assert l == [l[0]] + l[1..];
    assert forall i: nat, t: Location :: ([At(i)] + t)[1..] == t;
  }

  lemma {:induction false} SensitiveAreMarked(v: Json, l: Location)
    ensures Marked(RedactSensitive(v), l) <==> Outermost(v, l)
    ensures Marked(RedactSensitive(v), l) ==> Present(RedactSensitive(v), l)
  {
    if l == [] {
    } else {
      match v
      case Obj(fields) => if l[0].Key? && l[0].k in fields { SensitiveAreMarked(fields[l[0].k], l[1..]); }
      case Arr(items) => if l[0].At? && l[0].i < |items| { SensitiveAreMarked(items[l[0].i], l[1..]); }
      case _ =>
    }
  }

  /** A configured path takes a mark away only together with the place it stands at, and sets none under a sensitive
      key. */
  lemma {:induction false} PathKeepsMarks(v: Json, path: Path, l: Location)
    requires Hidden(v)
    ensures Marked(RedactPath(v, path), l) <==> Marked(v, l) && Present(RedactPath(v, path), l)
    ensures Present(RedactPath(v, path), l) ==> Present(v, l)
    decreases v
  {
    if l != [] && path != [] {
      match v
      case Obj(fields) =>
        if path[0] in fields && |path| > 1 && l[0] == Key(path[0]) {
          PathKeepsMarks(fields[path[0]], path[1..], l[1..]);
        } else if l[0].Key? && l[0].k in fields {
          MarkedIsPresent(fields[l[0].k], l[1..]);
          assert Present(REDACTED, l[1..]) ==> Present(fields[l[0].k], l[1..]);
        }
      case Arr(items) => if l[0].At? && l[0].i < |items| { PathKeepsMarks(items[l[0].i], path, l[1..]); }
      case _ =>
    } else {
      MarkedIsPresent(v, l);
    }
  }

  lemma {:induction false} MarkedIsPresent(v: Json, l: Location)
    ensures Marked(v, l) ==> Present(v, l)
    decreases |l|
  {
    if l == [] {
    } else {
      match v
      case Obj(fields) => if l[0].Key? && l[0].k in fields { MarkedIsPresent(fields[l[0].k], l[1..]); }
      case Arr(items) => if l[0].At? && l[0].i < |items| { MarkedIsPresent(items[l[0].i], l[1..]); }
      case _ =>
    }
  }

  /** The sensitive places reported are exactly the outermost sensitive keys of the payload that no configured path
      has removed together with something above them. */
  lemma {:induction false} ReportedPlaces(payload: Json, paths: seq<Path>, l: Location)
    ensures l in SensitiveLocations(Redacted(payload, paths)) <==>
      Outermost(payload, l) && Present(Redacted(payload, paths), l)
  {
    hide SensitiveLocations, RedactSensitive, RedactPath, Hidden, Covered, Marked, Present, Outermost;
    CollectedAreMarked(Redacted(payload, paths), l);
    if paths == [] {
      SensitiveAreMarked(payload, l);
    } else {
      var n := |paths| - 1;
      var before := Redacted(payload, paths[..n]);
      ReportedPlaces(payload, paths[..n], l);
      CollectedAreMarked(before, l);
      RedactionHides(payload, paths[..n]);
      PathKeepsMarks(before, paths[n], l);
    }
  }

  // ------------------------------------------------------------------ every leaf

  /** What a value has at a location. */
  function Find(v: Json, l: Location): Option<Json> {
    if l == [] then Some(v)
    else
      match v
      case Obj(fields) => if l[0].Key? && l[0].k in fields then Find(fields[l[0].k], l[1..]) else None
      case Arr(items) => if l[0].At? && l[0].i < |items| then Find(items[l[0].i], l[1..]) else None
      case _ => None
  }

  /** The keys on the way to a location; list positions do not count. */
  function KeysOn(l: Location): Path {
    if l == [] then [] else (if l[0].Key? then [l[0].k] else []) + KeysOn(l[1..])
  }

  /** A sensitive key's name is one of these, whatever the case of its letters. */
  ghost predicate NamesSecret(key: string) {
    exists s :: s in ["api_key", "apikey", "authorization", "access_token", "refresh_token", "secret", "token",
                      "password"]
                && SameButCase(key, s)
  }

  predicate SameButCase(a: string, s: string) {
    |a| == |s| && forall i :: 0 <= i < |a| ==> a[i] == s[i] || ('a' <= s[i] <= 'z' && a[i] as int + 32 == s[i] as int)
  }

  /** A configured path leads to the location or to something above it. */
  ghost predicate OnPath(l: Location, paths: seq<Path>) {
    exists p :: p in paths && LeadsTo(p, l)
  }

  predicate LeadsTo(p: Path, l: Location) {
    p != [] && p <= KeysOn(l)
  }

  ghost predicate IsMasked(v: Option<Json>) { v == None || v == Some(Str("[REDACTED]")) }

  predicate IsLeaf(v: Option<Json>) { v.None? || (!v.value.Obj? && !v.value.Arr?) }

  lemma {:induction false} LowerIs(a: string)
    ensures |Lower(a)| == |a| && forall i :: 0 <= i < |a| ==> Lower(a)[i] == LowerChar(a[i])
  {
    if a == [] {
    } else {
      LowerIs(a[1..]);
    }
  }

  lemma LowerMatches(key: string, s: string)
    requires forall i :: 0 <= i < |s| ==> 'a' <= s[i] <= 'z' || s[i] == '_'
    ensures Lower(key) == s <==> SameButCase(key, s)
  {
    LowerIs(key);
    if SameButCase(key, s) { assert Lower(key) == s; }
  }

  lemma SensitiveMeans(key: string)
    ensures Sensitive(key) <==> NamesSecret(key)
  {
    var names := ["api_key", "apikey", "authorization", "access_token", "refresh_token", "secret", "token", "password"];
    assert forall s :: s in names <==> s in SENSITIVE_KEYS;
    forall s | s in names ensures Lower(key) == s <==> SameButCase(key, s) { LowerMatches(key, s); }
    hide Lower, SameButCase;
  }

  lemma {:induction false} SensitiveFound(v: Json, l: Location)
    requires IsLeaf(Find(v, l))
    ensures if exists k :: Key(k) in l && Sensitive(k) then IsMasked(Find(RedactSensitive(v), l))
            else Find(RedactSensitive(v), l) == Find(v, l)
    decreases |l|
  {
    hide Sensitive;
    if l == [] {
    } else {
      assert forall k :: Key(k) in l <==> l[0] == Key(k) || Key(k) in l[1..];
      match v
      case Obj(fields) => if l[0].Key? && l[0].k in fields { SensitiveFound(fields[l[0].k], l[1..]); }
      case Arr(items) => if l[0].At? && l[0].i < |items| { SensitiveFound(items[l[0].i], l[1..]); }
      case _ =>
    }
  }

  lemma {:induction false} PathFound(v: Json, path: Path, l: Location)
    requires IsLeaf(Find(v, l))
    ensures if path != [] && path <= KeysOn(l) then IsMasked(Find(RedactPath(v, path), l))
            else Find(RedactPath(v, path), l) == Find(v, l)
    decreases |l|
  {
    if l == [] || path == [] {
    } else {
      match v
      case Obj(fields) =>
        if l[0].Key? && l[0].k in fields {
          assert KeysOn(l) == [l[0].k] + KeysOn(l[1..]);
          PathFound(fields[l[0].k], path[1..], l[1..]);
        }
      case Arr(items) =>
        if l[0].At? && l[0].i < |items| {
          assert KeysOn(l) == KeysOn(l[1..]);
          PathFound(items[l[0].i], path, l[1..]);
        }
      case _ =>
    }
  }

  lemma OnePathMore(l: Location, paths: seq<Path>)
    requires paths != []
    ensures var n := |paths| - 1;
      OnPath(l, paths) <==> OnPath(l, paths[..n]) || LeadsTo(paths[n], l)
  {
    var n := |paths| - 1;
    assert paths == paths[..n] + [paths[n]];
    assert paths[n] in paths && forall p :: p in paths <==> p in paths[..n] || p == paths[n];
    hide LeadsTo;
  }

  /** Redaction leaves a leaf of the payload exactly as it is if no key above it names a secret and no configured path
      leads to it or above it; every other leaf is masked, or gone with a mark above it. */
  lemma {:induction false} LeavesMean(payload: Json, paths: seq<Path>, l: Location)
    requires IsLeaf(Find(payload, l))
    ensures if (exists k :: Key(k) in l && NamesSecret(k)) || OnPath(l, paths)
            then IsMasked(Find(Redacted(payload, paths), l))
            else Find(Redacted(payload, paths), l) == Find(payload, l)
  {
    hide Find, RedactSensitive, RedactPath, NamesSecret, Sensitive, KeysOn;
    if paths == [] {
      forall k ensures Sensitive(k) <==> NamesSecret(k) { SensitiveMeans(k); }
      SensitiveFound(payload, l);
    } else {
      var n := |paths| - 1;
      LeavesMean(payload, paths[..n], l);
      OnePathMore(l, paths);
      PathFound(Redacted(payload, paths[..n]), paths[n], l);
    }
  }
}
