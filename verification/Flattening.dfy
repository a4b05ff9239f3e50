/** File paths as keys of a ConfigMap: `/` becomes `__`, and the init script turns every `__`, from
    the left and without overlap, back into `/` (internal/controller/radiuscluster_controller.go). */
module Flattening {
  /** strings.ReplaceAll(p, "/", "__"). */
  function Flatten(p: string): string {
    if p == "" then ""
    else if p[0] == '/' then "__" + Flatten(p[1..])
    else [p[0]] + Flatten(p[1..])
  }

  /** sed 's/__/\//g'. */
  function Unflatten(s: string): string {
    if s == "" then ""
    else if |s| >= 2 && s[0] == '_' && s[1] == '_' then "/" + Unflatten(s[2..])
    else [s[0]] + Unflatten(s[1..])
  }

  /** Neither `__` nor `_/` occurs. */
  predicate Tame(p: string) {
    forall i | 0 <= i < |p| - 1 && p[i] == '_' :: p[i + 1] != '_' && p[i + 1] != '/'
  }

  lemma {:induction false} TamePathsReturn(p: string)
    requires Tame(p)
    ensures Unflatten(Flatten(p)) == p
  {
    if p != "" {
      var rest := p[1..];
      assert forall i | 0 <= i < |rest| :: rest[i] == p[i + 1];
      TamePathsReturn(rest);
      assert p == [p[0]] + rest;
      if p[0] == '/' {
        assert Flatten(p)[2..] == Flatten(rest);
      } else {
        assert Flatten(p)[1..] == Flatten(rest);
        assert rest != "" && rest[0] != '/' ==> Flatten(rest)[0] == rest[0];
      }
    }
  }

  lemma {:induction false} FlatHasNoSlash(p: string)
    ensures '/' !in Flatten(p)
  {
    if p != "" {
      FlatHasNoSlash(p[1..]);
    }
  }

  lemma {:induction false} UnflattenedIsTame(s: string)
    requires '/' !in s
    ensures Tame(Unflatten(s))
    decreases |s|
  {
    if s != "" {
      if |s| >= 2 && s[0] == '_' && s[1] == '_' {
        UnflattenedIsTame(s[2..]);
        PrependTame('/', Unflatten(s[2..]));
      } else {
        UnflattenedIsTame(s[1..]);
        assert |s| >= 2 && s[1] != '_' ==> s[1] in s && Unflatten(s[1..])[0] == s[1];
        PrependTame(s[0], Unflatten(s[1..]));
      }
    }
  }

  lemma PrependTame(c: char, p: string)
    requires Tame(p) && (c == '_' && p != "" ==> p[0] != '_' && p[0] != '/')
    ensures Tame([c] + p)
  {
  }

  /** The round trip, exactly. */
  lemma {:induction false} FlattenRoundTrip(p: string)
    ensures Unflatten(Flatten(p)) == p <==> Tame(p)
  {
    if Tame(p) {
      TamePathsReturn(p);
    }
    FlatHasNoSlash(p);
    UnflattenedIsTame(Flatten(p));
  }

  lemma FlattenInjective(p: string, q: string)
    requires Tame(p) && Tame(q) && Flatten(p) == Flatten(q)
    ensures p == q
  {
    TamePathsReturn(p);
    TamePathsReturn(q);
  }

  lemma {:induction false} FlattenConcat(a: string, b: string)
    ensures Flatten(a + b) == Flatten(a) + Flatten(b)
  {
    if a == "" {
      assert a + b == b;
    } else {
      assert (a + b)[1..] == a[1..] + b;
      FlattenConcat(a[1..], b);
    }
  }

  lemma {:induction false} NothingToFlatten(p: string)
    requires '/' !in p
    ensures Flatten(p) == p
  {
    if p != "" {
      assert p == [p[0]] + p[1..];
      NothingToFlatten(p[1..]);
    }
  }

  // ---------------------------------------------------------------- a whole file map

  function FlatKeys(files: map<string, string>): set<string> {
    set p | p in files :: Flatten(p)
  }

  predicate ComesFrom(files: map<string, string>, key: string, content: string) {
    exists p :: p in files && Flatten(p) == key && content == files[p]
  }

  /** The data of the ConfigMap. Where several paths flatten to one key, any of their contents may end up there. */
  predicate FlatData(files: map<string, string>, data: map<string, string>) {
    && data.Keys == FlatKeys(files)
    && forall key | key in data :: ComesFrom(files, key, data[key])
  }

  ghost function SomeFlatData(files: map<string, string>): (data: map<string, string>)
    ensures FlatData(files, data)
  {
    var data := map key | key in FlatKeys(files) :: (var p :| p in files && Flatten(p) == key; files[p]);
    assert forall key | key in data :: ComesFrom(files, key, data[key]);
    data
  }

  method FlattenFiles(files: map<string, string>) returns (data: map<string, string>)
    ensures FlatData(files, data)
  {
    data := map[];
    var left := files.Keys;
    while left != {}
      invariant left <= files.Keys
      invariant data.Keys == set p | p in files && p !in left :: Flatten(p)
      invariant forall key | key in data :: ComesFrom(files, key, data[key])
    {
      var p :| p in left;
      assert ComesFrom(files, Flatten(p), files[p]);
      data := data[Flatten(p) := files[p]];
      left := left - {p};
    }
  }

  /** The init script writes this path. */
  predicate Restored(data: map<string, string>, p: string) {
    exists key :: key in data && Unflatten(key) == p
  }

  predicate AllTame(files: map<string, string>) {
    forall p | p in files :: Tame(p)
  }

  /** The init script writes exactly the paths of the files. */
  ghost predicate RestoresPaths(files: map<string, string>, data: map<string, string>) {
    forall p :: Restored(data, p) <==> p in files
  }

  /** Every file is in the data under its key, with its own content. */
  predicate KeepsContents(files: map<string, string>, data: map<string, string>) {
    forall p | p in files :: Flatten(p) in data && data[Flatten(p)] == files[p]
  }

  lemma KeyReturns(files: map<string, string>, data: map<string, string>, key: string)
    requires FlatData(files, data) && key in data && AllTame(files)
    ensures Unflatten(key) in files && files[Unflatten(key)] == data[key]
  {
    assert ComesFrom(files, key, data[key]);
    var p :| p in files && Flatten(p) == key && data[key] == files[p];
    TamePathsReturn(p);
  }

  lemma PathReturns(files: map<string, string>, data: map<string, string>, p: string)
    requires FlatData(files, data) && p in files && Tame(p)
    ensures Restored(data, p)
  {
    TamePathsReturn(p);
    var key := Flatten(p);
    assert key in FlatKeys(files) && key in data.Keys;
  }

  lemma RestoredIsTame(files: map<string, string>, data: map<string, string>, p: string)
    requires FlatData(files, data) && Restored(data, p)
    ensures Tame(p)
    ensures AllTame(files) ==> p in files
  {
    var key :| key in data && Unflatten(key) == p;
    assert ComesFrom(files, key, data[key]);
    var q :| q in files && Flatten(q) == key;
    FlatHasNoSlash(q);
    UnflattenedIsTame(key);
    if AllTame(files) {
      KeyReturns(files, data, key);
    }
  }

  /** The init script writes exactly the paths that were rendered if and only if all of them are tame. */
  lemma PathsReturn(files: map<string, string>, data: map<string, string>)
    requires FlatData(files, data)
    ensures RestoresPaths(files, data) <==> AllTame(files)
  {
    forall p | Restored(data, p)
      ensures Tame(p) && (AllTame(files) ==> p in files)
    {
      RestoredIsTame(files, data, p);
    }
    forall p | p in files && Tame(p)
      ensures Restored(data, p)
    {
      PathReturns(files, data, p);
    }
  }

  /** And then every file comes back with its own content, whichever order the map was read in. */
  lemma ContentsReturn(files: map<string, string>, data: map<string, string>)
    requires FlatData(files, data) && AllTame(files)
    ensures KeepsContents(files, data)
  {
    forall p | p in files
      ensures Flatten(p) in data && data[Flatten(p)] == files[p]
    {
      var key := Flatten(p);
      assert key in FlatKeys(files) && key in data.Keys;
      KeyReturns(files, data, key);
      TamePathsReturn(p);
    }
  }

  /** No two paths share a key. */
  predicate NoCollision(files: map<string, string>) {
    forall p, q | p in files && q in files && Flatten(p) == Flatten(q) :: p == q
  }

  /** Without collisions the data holds every content, tame or not. */
  lemma NoCollisionKeeps(files: map<string, string>, data: map<string, string>)
    requires FlatData(files, data) && NoCollision(files)
    ensures KeepsContents(files, data)
  {
    forall p | p in files
      ensures Flatten(p) in data && data[Flatten(p)] == files[p]
    {
      var key := Flatten(p);
      assert key in FlatKeys(files) && key in data.Keys;
      assert ComesFrom(files, key, data[key]);
      var q :| q in files && Flatten(q) == key && data[key] == files[q];
    }
  }
}
