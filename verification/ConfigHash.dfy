/** The hash that makes pods roll when the configuration changes (computeConfigHash). The digest
    itself is a parameter; what matters here is the stream that is fed to it. */
module ConfigHash {
  import opened Clients

  // ---------------------------------------------------------------- the order of strings

  /** Go's order of strings: the first difference decides, a prefix comes first. */
  predicate Less(a: string, b: string)
    decreases |a|
  {
    b != "" && (a == "" || a[0] < b[0] || (a[0] == b[0] && Less(a[1..], b[1..])))
  }

  lemma {:induction false} Total(a: string, b: string)
    ensures a == b || Less(a, b) || Less(b, a)
    ensures !(Less(a, b) && Less(b, a)) && !Less(a, a)
    decreases |a|
  {
    if a != "" && b != "" {
      Total(a[1..], b[1..]);
      Total(a[1..], a[1..]);
      assert a == [a[0]] + a[1..] && b == [b[0]] + b[1..];
    } else if a != "" {
      Total(a[1..], a[1..]);
    }
  }

  lemma {:induction false} Transitive(a: string, b: string, c: string)
    requires Less(a, b) && Less(b, c)
    ensures Less(a, c)
    decreases |a|
  {
    if a != "" && a[0] == b[0] == c[0] {
      Transitive(a[1..], b[1..], c[1..]);
    }
  }

  predicate Ascending(ks: seq<string>) {
    forall i, j | 0 <= i < j < |ks| :: Less(ks[i], ks[j])
  }

  // ---------------------------------------------------------------- sorting

  function Insert(k: string, ks: seq<string>): seq<string>
    decreases |ks|
  {
    if ks == [] || Less(k, ks[0]) then [k] + ks else [ks[0]] + Insert(k, ks[1..])
  }

  /** sort.Strings. */
  function Sorted(ks: seq<string>): seq<string> {
    if ks == [] then [] else Insert(ks[|ks| - 1], Sorted(ks[..|ks| - 1]))
  }

  predicate SameElements(a: seq<string>, b: seq<string>) {
    (forall k | k in a :: k in b) && forall k | k in b :: k in a
  }

  lemma Cons(k: string, ks: seq<string>)
    requires Ascending(ks) && (ks == [] || Less(k, ks[0]))
    ensures Ascending([k] + ks)
  {
    forall j | 0 <= j < |ks|
      ensures Less(k, ks[j])
    {
      if j > 0 {
        Transitive(k, ks[0], ks[j]);
      }
    }
  }

  lemma {:induction false} InsertAscends(k: string, ks: seq<string>)
    requires Ascending(ks) && k !in ks
    ensures Ascending(Insert(k, ks)) && SameElements(Insert(k, ks), [k] + ks)
    decreases |ks|
  {
    if ks != [] {
      assert ks[0] in ks && ks == [ks[0]] + ks[1..];
      Total(k, ks[0]);
    }
    if ks == [] || Less(k, ks[0]) {
      Cons(k, ks);
    } else {
      InsertAscends(k, ks[1..]);
      var rest := Insert(k, ks[1..]);
      assert rest[0] in [k] + ks[1..];
      assert forall j | 0 < j < |ks| :: Less(ks[0], ks[j]);
      assert rest[0] == k || rest[0] in ks[1..];
      Cons(ks[0], rest);
    }
  }

  /** The elements of a set, each once, in some order. */
  ghost predicate Enumerates(ks: seq<string>, keys: set<string>) {
    && (forall k :: k in ks <==> k in keys)
    && forall i, j | 0 <= i < j < |ks| :: ks[i] != ks[j]
  }

  lemma {:induction false} SortedAscends(ks: seq<string>)
    requires forall i, j | 0 <= i < j < |ks| :: ks[i] != ks[j]
    ensures Ascending(Sorted(ks)) && SameElements(Sorted(ks), ks)
  {
    if ks != [] {
      var before, last := ks[..|ks| - 1], ks[|ks| - 1];
      SortedAscends(before);
      assert last !in before && ks == before + [last];
      InsertAscends(last, Sorted(before));
    }
  }

  /** A finite set has one ascending enumeration. */
  lemma {:induction false} AscendingUnique(a: seq<string>, b: seq<string>)
    requires Ascending(a) && Ascending(b) && SameElements(a, b)
    ensures a == b
    decreases |a|
  {
    if a == [] {
      if b != [] {
        NotEmpty(a, b);
      }
    } else {
      assert a[0] in b;
      SameFirst(a, b);
      TailsSame(a, b);
      AscendingUnique(a[1..], b[1..]);
      assert a == [a[0]] + a[1..] && b == [b[0]] + b[1..];
    }
  }

  lemma NotEmpty(a: seq<string>, b: seq<string>)
    requires SameElements(a, b) && b != []
    ensures a != []
  {
    assert b[0] in b;
  }

  lemma SameFirst(a: seq<string>, b: seq<string>)
    requires Ascending(a) && Ascending(b) && SameElements(a, b) && a != []
    ensures b != [] && a[0] == b[0]
  {
    assert a[0] in b;
    var i :| 0 <= i < |b| && b[i] == a[0];
    assert b[0] in a;
    var j :| 0 <= j < |a| && a[j] == b[0];
    Total(a[0], b[0]);
  }

  lemma TailsSame(a: seq<string>, b: seq<string>)
    requires Ascending(a) && Ascending(b) && SameElements(a, b) && a != [] && b != [] && a[0] == b[0]
    ensures SameElements(a[1..], b[1..])
  {
    TailWithin(a, b);
    TailWithin(b, a);
  }

  lemma TailWithin(a: seq<string>, b: seq<string>)
    requires Ascending(a) && SameElements(a, b) && a != [] && b != [] && a[0] == b[0]
    ensures forall k | k in a[1..] :: k in b[1..]
  {
    NotInTail(a);
    forall k | k in a[1..]
      ensures k in b[1..]
    {
      assert k in a && k != a[0];
      assert b == [b[0]] + b[1..];
    }
  }

  lemma NotInTail(a: seq<string>)
    requires Ascending(a) && a != []
    ensures a[0] !in a[1..]
  {
    Total(a[0], a[0]);
    assert forall j | 0 <= j < |a| - 1 :: a[1..][j] == a[j + 1];
  }

  // ---------------------------------------------------------------- the stream

  function FileStream(ks: seq<string>, files: map<string, string>): string
    requires forall k | k in ks :: k in files
  {
    if ks == [] then ""
    else FileStream(ks[..|ks| - 1], files) + (ks[|ks| - 1] + files[ks[|ks| - 1]])
  }

  function HashedText(c: RadiusClient): string {
    c.name + (c.ip + (c.secretRef.name + (c.secretRef.key + c.nasType)))
  }

  function ClientStream(cs: seq<RadiusClient>): string {
    if cs == [] then ""
    else
      ClientStream(cs[..|cs| - 1]) + HashedText(cs[|cs| - 1])
  }

  method WriteFiles(sorted: seq<string>, files: map<string, string>) returns (stream: string)
    requires forall k | k in sorted :: k in files
    ensures stream == FileStream(sorted, files)
  {
    stream := "";
    for i := 0 to |sorted|
      invariant forall k | k in sorted[..i] :: k in sorted
      invariant stream == FileStream(sorted[..i], files)
    {
      var upTo := sorted[..i + 1];
      assert upTo[..i] == sorted[..i] && forall k | k in upTo :: k in sorted;
      stream := stream + (sorted[i] + files[sorted[i]]);
    }
    assert sorted[..|sorted|] == sorted;
  }

  method WriteClients(cs: seq<RadiusClient>) returns (stream: string)
    ensures stream == ClientStream(cs)
  {
    stream := "";
    for i := 0 to |cs|
      invariant stream == ClientStream(cs[..i])
    {
      assert cs[..i + 1][..i] == cs[..i];
      stream := stream + (cs[i].name + (cs[i].ip + (cs[i].secretRef.name + (cs[i].secretRef.key + cs[i].nasType))));
    }
    assert cs[..|cs|] == cs;
  }

  /** The keys of a finite map in ascending order. */
  ghost function AscendingKeys(keys: set<string>): (ks: seq<string>)
    ensures Ascending(ks) && forall k :: k in ks <==> k in keys
  {
    if keys == {} then []
    else
      var k :| k in keys;
      var others := AscendingKeys(keys - {k});
      InsertAscends(k, others);
      Insert(k, others)
  }

  /** What is hashed: paths and contents in ascending order of paths, then the clients in order. */
  ghost function ConfigStream(files: map<string, string>, cs: seq<RadiusClient>): string {
    FileStream(AscendingKeys(files.Keys), files) + ClientStream(cs)
  }

  /** However a finite set is enumerated, sorting gives its ascending keys. */
  lemma SortingForgetsOrder(ks: seq<string>, keys: set<string>)
    requires Enumerates(ks, keys)
    ensures Sorted(ks) == AscendingKeys(keys)
  {
    SortedAscends(ks);
    AscendingUnique(Sorted(ks), AscendingKeys(keys));
  }

  /** Whatever order the file map is read in, the hash is that of the one stream: equal files and
      equal clients give equal hashes, and so the same pod template. */
  method ComputeConfigHash(files: map<string, string>, cs: seq<RadiusClient>, digest: string -> string)
      returns (hash: string)
    ensures hash == digest(ConfigStream(files, cs))
  {
    var keys := Enumerate(files);
    SortingForgetsOrder(keys, files.Keys);
    var fileStream := WriteFiles(Sorted(keys), files);
    var clientStream := WriteClients(cs);
    hash := digest(fileStream + clientStream);
  }

  /** The keys of a map in the order in which a range loop happens to visit them. */
  method Enumerate(files: map<string, string>) returns (keys: seq<string>)
    ensures Enumerates(keys, files.Keys)
  {
    keys := [];
    var left := files.Keys;
    while left != {}
      invariant left <= files.Keys && Enumerates(keys, files.Keys - left)
    {
      var k :| k in left;
      keys := keys + [k];
      left := left - {k};
    }
  }

  // ---------------------------------------------------------------- when the stream tells configurations apart

  /** Nothing separates the parts of the stream; only their lengths could say where each one ends. */
  predicate SameFileLengths(ks: seq<string>, a: map<string, string>, ls: seq<string>, b: map<string, string>)
    requires (forall k | k in ks :: k in a) && forall l | l in ls :: l in b
  {
    |ks| == |ls| && forall i | 0 <= i < |ks| :: |ks[i]| == |ls[i]| && |a[ks[i]]| == |b[ls[i]]|
  }

  predicate SameClientLengths(cs: seq<RadiusClient>, ds: seq<RadiusClient>) {
    |cs| == |ds| && forall i | 0 <= i < |cs| ::
      && |cs[i].name| == |ds[i].name| && |cs[i].ip| == |ds[i].ip| && |cs[i].secretRef.name| == |ds[i].secretRef.name|
      && |cs[i].secretRef.key| == |ds[i].secretRef.key| && |cs[i].nasType| == |ds[i].nasType|
  }

  /** The part of a client that is hashed: all but its cluster and its raw text. */
  predicate SameHashed(c: RadiusClient, d: RadiusClient) {
    c.name == d.name && c.ip == d.ip && c.secretRef == d.secretRef && c.nasType == d.nasType
  }

  predicate SameClients(cs: seq<RadiusClient>, ds: seq<RadiusClient>) {
    |cs| == |ds| && forall i | 0 <= i < |cs| :: SameHashed(cs[i], ds[i])
  }

  ghost predicate SameLengths(a: map<string, string>, cs: seq<RadiusClient>, b: map<string, string>,
      ds: seq<RadiusClient>) {
    SameFileLengths(AscendingKeys(a.Keys), a, AscendingKeys(b.Keys), b) && SameClientLengths(cs, ds)
  }

  lemma SplitAt(p: string, s: string, q: string, t: string)
    requires p + s == q + t && (|p| == |q| || |s| == |t|)
    ensures p == q && s == t
  {
    assert |p + s| == |p| + |s| && |q + t| == |q| + |t|;
    assert p == (p + s)[..|p|] && q == (q + t)[..|q|];
    assert s == (p + s)[|p|..] && t == (q + t)[|q|..];
  }

  lemma LastFile(ks: seq<string>, a: map<string, string>, ls: seq<string>, b: map<string, string>, n: nat)
    requires (forall k | k in ks :: k in a) && (forall l | l in ls :: l in b) && SameFileLengths(ks, a, ls, b)
    requires |ks| == n + 1 && FileStream(ks, a) == FileStream(ls, b)
    ensures ks[n] == ls[n] && a[ks[n]] == b[ls[n]]
    ensures FileStream(ks[..n], a) == FileStream(ls[..n], b) && SameFileLengths(ks[..n], a, ls[..n], b)
  {
    var k, l := ks[n], ls[n];
    SplitAt(FileStream(ks[..n], a), k + a[k], FileStream(ls[..n], b), l + b[l]);
    SplitAt(k, a[k], l, b[l]);
  }

  lemma {:induction false} FileStreamSplits(ks: seq<string>, a: map<string, string>, ls: seq<string>,
      b: map<string, string>)
    requires (forall k | k in ks :: k in a) && (forall l | l in ls :: l in b) && SameFileLengths(ks, a, ls, b)
    requires FileStream(ks, a) == FileStream(ls, b)
    ensures ks == ls && forall i | 0 <= i < |ks| :: a[ks[i]] == b[ks[i]]
  {
    if ks != [] {
      hide FileStream;
      var n := |ks| - 1;
      LastFile(ks, a, ls, b, n);
      hide SameFileLengths;
      FileStreamSplits(ks[..n], a, ls[..n], b);
      assert ks == ks[..n] + [ks[n]] && ls == ls[..n] + [ls[n]];
      forall i | 0 <= i < |ks|
        ensures a[ks[i]] == b[ks[i]]
      {
        assert i < n ==> ks[..n][i] == ks[i];
      }
    }
  }

  lemma {:induction false} FileStreamLength(ks: seq<string>, a: map<string, string>, ls: seq<string>,
      b: map<string, string>)
    requires (forall k | k in ks :: k in a) && (forall l | l in ls :: l in b) && SameFileLengths(ks, a, ls, b)
    ensures |FileStream(ks, a)| == |FileStream(ls, b)|
  {
    if ks != [] {
      FileStreamLength(ks[..|ks| - 1], a, ls[..|ks| - 1], b);
    }
  }

  lemma HashedTextSplits(c: RadiusClient, d: RadiusClient)
    requires HashedText(c) == HashedText(d) && SameClientLengths([c], [d])
    ensures SameHashed(c, d)
  {
    assert [c][0] == c && [d][0] == d;
    SplitAt(c.name, c.ip + (c.secretRef.name + (c.secretRef.key + c.nasType)), d.name,
            d.ip + (d.secretRef.name + (d.secretRef.key + d.nasType)));
    SplitAt(c.ip, c.secretRef.name + (c.secretRef.key + c.nasType), d.ip,
            d.secretRef.name + (d.secretRef.key + d.nasType));
    SplitAt(c.secretRef.name, c.secretRef.key + c.nasType, d.secretRef.name, d.secretRef.key + d.nasType);
    SplitAt(c.secretRef.key, c.nasType, d.secretRef.key, d.nasType);
  }

  lemma {:induction false} ClientStreamSplits(cs: seq<RadiusClient>, ds: seq<RadiusClient>)
    requires SameClientLengths(cs, ds)
    ensures ClientStream(cs) == ClientStream(ds) <==> SameClients(cs, ds)
  {
    if cs != [] {
      var n := |cs| - 1;
      var c, d := cs[n], ds[n];
      ClientStreamSplits(cs[..n], ds[..n]);
      assert |HashedText(c)| == |HashedText(d)|;
      if ClientStream(cs) == ClientStream(ds) {
        SplitAt(ClientStream(cs[..n]), HashedText(c), ClientStream(ds[..n]), HashedText(d));
        HashedTextSplits(c, d);
      }
    }
  }

  /** Exactly when equal streams mean equal configurations: if and only if the parts that stand next
      to each other in the stream have equal lengths, path by path, content by content, field by field. */
  lemma StreamDetermines(a: map<string, string>, cs: seq<RadiusClient>, b: map<string, string>, ds: seq<RadiusClient>)
    ensures ConfigStream(a, cs) == ConfigStream(b, ds) && SameLengths(a, cs, b, ds) <==> a == b && SameClients(cs, ds)
  {
    var ks, ls := AscendingKeys(a.Keys), AscendingKeys(b.Keys);
    if ConfigStream(a, cs) == ConfigStream(b, ds) && SameLengths(a, cs, b, ds) {
      FileStreamLength(ks, a, ls, b);
      SplitAt(FileStream(ks, a), ClientStream(cs), FileStream(ls, b), ClientStream(ds));
      FileStreamSplits(ks, a, ls, b);
      ClientStreamSplits(cs, ds);
      assert a.Keys == b.Keys;
    }
    if a == b && SameClients(cs, ds) {
      ClientStreamSplits(cs, ds);
    }
  }
}
