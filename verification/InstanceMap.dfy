/** The hash map with holes of compiler/internal/typeparams/map.go, and the instance sets on top of it,
    in instance.go. */
module TypeParams {

  datatype Option<+T> = None | Some(value: T)

  type Object = nat
  type Args = nat

  /** An object with its type arguments. */
  datatype Instance = Instance(obj: Object, args: Args)

  datatype Entry<V> = Entry(key: Instance, value: V)

  type Bucket<V> = seq<Option<Entry<V>>>

  type Data<V> = map<Object, map<nat, Bucket<V>>>

  /** typeHash, and types.Identical on lists of types: two are identical when they have one canonical
      form. */
  datatype Types = Types(canon: Args -> Args, hash: Args -> nat) {
    /** Identical types have the same hash. */
    ghost predicate Respect() {
      forall a :: canon(canon(a)) == canon(a) && hash(canon(a)) == hash(a)
    }

    function Canon(key: Instance): Instance {
      Instance(key.obj, canon(key.args))
    }

    /** candidateArgsMatch. */
    predicate Matches<V>(key: Instance, candidate: Option<Entry<V>>) {
      candidate.Some? && canon(candidate.value.key.args) == canon(key.args)
    }
  }

  function BucketAt<V>(data: Data<V>, o: Object, h: nat): Bucket<V> {
    if o in data && h in data[o] then data[o][h] else []
  }

  // ----- the map that the buckets stand for -----

  /** An entry that is not a hole is where it belongs and has the value of its key; no two have one key. */
  ghost predicate BucketOk<V>(ts: Types, o: Object, h: nat, bucket: Bucket<V>, contents: map<Instance, V>) {
    && (forall i | 0 <= i < |bucket| && bucket[i].Some? ::
          var e := bucket[i].value;
          e.key.obj == o && ts.hash(e.key.args) == h && ts.Canon(e.key) in contents
          && contents[ts.Canon(e.key)] == e.value)
    && (forall i, j | 0 <= i < j < |bucket| && bucket[i].Some? && bucket[j].Some? ::
          ts.canon(bucket[i].value.key.args) != ts.canon(bucket[j].value.key.args))
  }

  ghost predicate Stored<V>(ts: Types, data: Data<V>, k: Instance) {
    exists c | c in BucketAt(data, k.obj, ts.hash(k.args)) :: ts.Matches(k, c)
  }

  ghost predicate Represents<V>(ts: Types, data: Data<V>, contents: map<Instance, V>) {
    && ts.Respect()
    && (forall o, h :: BucketOk(ts, o, h, BucketAt(data, o, h), contents))
    && (forall k | k in contents :: ts.Canon(k) == k && Stored(ts, data, k))
  }

  /** Only the bucket of the key changes. */
  ghost predicate OneBucket<V>(ts: Types, was: Data<V>, now: Data<V>, key: Instance, bucket: Bucket<V>) {
    && BucketAt(now, key.obj, ts.hash(key.args)) == bucket
    && (forall o, h | o != key.obj || h != ts.hash(key.args) :: BucketAt(now, o, h) == BucketAt(was, o, h))
  }

  /** The entry that matches a key has its value, and a key is not in the map when none matches. */
  lemma Found<V>(ts: Types, data: Data<V>, contents: map<Instance, V>, key: Instance)
    requires Represents(ts, data, contents)
    ensures var b := BucketAt(data, key.obj, ts.hash(key.args));
            && (forall i | 0 <= i < |b| && ts.Matches(key, b[i]) ::
                  ts.Canon(key) in contents && b[i].value.value == contents[ts.Canon(key)]
                  && ts.Canon(b[i].value.key) == ts.Canon(key))
            && (ts.Canon(key) in contents ==> exists i :: 0 <= i < |b| && ts.Matches(key, b[i]))
  {
    var b := BucketAt(data, key.obj, ts.hash(key.args));
    assert BucketOk(ts, key.obj, ts.hash(key.args), b, contents);
    if ts.Canon(key) in contents {
      assert Stored(ts, data, ts.Canon(key));
      var c :| c in b && ts.Matches(ts.Canon(key), c);
      var i :| 0 <= i < |b| && b[i] == c;
      assert ts.Matches(key, b[i]);
    }
  }

  lemma FoundAt<V>(ts: Types, data: Data<V>, contents: map<Instance, V>, key: Instance, i: nat)
    requires Represents(ts, data, contents)
    requires i < |BucketAt(data, key.obj, ts.hash(key.args))|
             && ts.Matches(key, BucketAt(data, key.obj, ts.hash(key.args))[i])
    ensures var e := BucketAt(data, key.obj, ts.hash(key.args))[i].value;
            ts.Canon(key) in contents && e.value == contents[ts.Canon(key)] && e.key.obj == key.obj
            && ts.canon(e.key.args) == ts.canon(key.args)
  {
    Found(ts, data, contents, key);
    hide Represents, BucketAt;
    assert ts.Canon(BucketAt(data, key.obj, ts.hash(key.args))[i].value.key) == ts.Canon(key);
  }

  lemma NotFound<V>(ts: Types, data: Data<V>, contents: map<Instance, V>, key: Instance)
    requires Represents(ts, data, contents)
    requires var b := BucketAt(data, key.obj, ts.hash(key.args)); forall i | 0 <= i < |b| :: !ts.Matches(key, b[i])
    ensures ts.Canon(key) !in contents
  {
    Found(ts, data, contents, key);
  }

  /** The new value of a key in the place of its entry, or a new entry in the place of a hole or at the
      end: the other entries keep theirs. */
  lemma SetRepresents<V>(ts: Types, was: Data<V>, now: Data<V>, contents: map<Instance, V>, key: Instance, i: nat,
                         e: Entry<V>)
    requires Represents(ts, was, contents)
    requires var b := BucketAt(was, key.obj, ts.hash(key.args));
             && i <= |b|
             && OneBucket(ts, was, now, key, if i < |b| then b[i := Some(e)] else b + [Some(e)])
             && (forall j | 0 <= j < |b| && j != i :: !ts.Matches(key, b[j]))
             && (i < |b| && b[i].Some? ==> ts.Matches(key, b[i]))
    requires e.key.obj == key.obj && ts.canon(e.key.args) == ts.canon(key.args)
    ensures Represents(ts, now, contents[ts.Canon(key) := e.value])
  {
    var k, after := ts.Canon(key), contents[ts.Canon(key) := e.value];
    var b, c := BucketAt(was, key.obj, ts.hash(key.args)), BucketAt(now, key.obj, ts.hash(key.args));
    assert ts.hash(e.key.args) == ts.hash(key.args) by {
      assert ts.hash(ts.canon(e.key.args)) == ts.hash(ts.canon(key.args));
    }
    assert c[i] == Some(e) && forall j | 0 <= j < |b| && j != i :: c[j] == b[j];
    forall o, h ensures BucketOk(ts, o, h, BucketAt(now, o, h), after) {
      assert BucketOk(ts, o, h, BucketAt(was, o, h), contents);
      if o != key.obj || h != ts.hash(key.args) { OtherBucket(ts, o, h, BucketAt(was, o, h), contents, after, key); }
    }
    forall x | x in after ensures ts.Canon(x) == x && Stored(ts, now, x) {
      if x == k {
        assert c[i] in c && ts.Matches(k, c[i]);
      } else {
        StillStored(ts, was, now, contents, x, key, i);
      }
    }
  }

  /** Instances that belong in different buckets are different. */
  lemma DifferentBuckets(ts: Types, a: Instance, b: Instance)
    requires ts.Respect() && (a.obj != b.obj || ts.hash(a.args) != ts.hash(b.args))
    ensures ts.Canon(a) != ts.Canon(b)
  {
    assert ts.hash(ts.canon(a.args)) == ts.hash(a.args) && ts.hash(ts.canon(b.args)) == ts.hash(b.args);
  }

  lemma OtherBucket<V>(ts: Types, o: Object, h: nat, bucket: Bucket<V>, contents: map<Instance, V>,
                       after: map<Instance, V>, key: Instance)
    requires ts.Respect() && BucketOk(ts, o, h, bucket, contents) && (o != key.obj || h != ts.hash(key.args))
    requires forall x | x in contents && x != ts.Canon(key) :: x in after && after[x] == contents[x]
    ensures BucketOk(ts, o, h, bucket, after)
  {
    forall i | 0 <= i < |bucket| && bucket[i].Some? ensures ts.Canon(bucket[i].value.key) != ts.Canon(key) {
      DifferentBuckets(ts, bucket[i].value.key, key);
    }
  }

  /** Another key's entry is not in the place that changes. */
  lemma StillStored<V>(ts: Types, was: Data<V>, now: Data<V>, contents: map<Instance, V>, x: Instance, key: Instance,
                       i: nat)
    requires Represents(ts, was, contents) && x in contents && x != ts.Canon(key)
    requires var b, c := BucketAt(was, key.obj, ts.hash(key.args)), BucketAt(now, key.obj, ts.hash(key.args));
             && OneBucket(ts, was, now, key, c) && |b| <= |c| && (forall j | 0 <= j < |b| && j != i :: c[j] == b[j])
             && (i < |b| && b[i].Some? ==> ts.Matches(key, b[i]))
    ensures Stored(ts, now, x)
  {
    var d := BucketAt(was, x.obj, ts.hash(x.args));
    var j := StoredAt(ts, was, contents, x);
    hide Represents, BucketAt;
    if x.obj == key.obj && ts.hash(x.args) == ts.hash(key.args) {
      var c := BucketAt(now, key.obj, ts.hash(key.args));
      assert j == i ==> ts.canon(x.args) == ts.canon(key.args);
      assert c[j] == d[j] && c[j] in c;
    } else {
      assert BucketAt(now, x.obj, ts.hash(x.args)) == d && d[j] in d;
    }
  }

  lemma StoredAt<V>(ts: Types, data: Data<V>, contents: map<Instance, V>, x: Instance) returns (j: nat)
    requires Represents(ts, data, contents) && x in contents
    ensures j < |BucketAt(data, x.obj, ts.hash(x.args))| && ts.Matches(x, BucketAt(data, x.obj, ts.hash(x.args))[j])
            && ts.Canon(x) == x
  {
    var b := BucketAt(data, x.obj, ts.hash(x.args));
    assert Stored(ts, data, x);
    var y :| y in b && ts.Matches(x, y);
    j :| 0 <= j < |b| && b[j] == y;
  }

  /** A hole in the place of the key's entry. */
  lemma DeleteRepresents<V>(ts: Types, was: Data<V>, now: Data<V>, contents: map<Instance, V>, key: Instance, i: nat)
    requires Represents(ts, was, contents)
    requires var b := BucketAt(was, key.obj, ts.hash(key.args));
             i < |b| && ts.Matches(key, b[i]) && OneBucket(ts, was, now, key, b[i := None])
    ensures Represents(ts, now, contents - {ts.Canon(key)})
  {
    hide Stored, BucketAt;
    var k, after := ts.Canon(key), contents - {ts.Canon(key)};
    var b, c := BucketAt(was, key.obj, ts.hash(key.args)), BucketAt(now, key.obj, ts.hash(key.args));
    forall o, h ensures BucketOk(ts, o, h, BucketAt(now, o, h), after) {
      assert BucketOk(ts, o, h, BucketAt(was, o, h), contents);
      if o != key.obj || h != ts.hash(key.args) { OtherBucket(ts, o, h, BucketAt(was, o, h), contents, after, key); }
    }
    forall x | x in after ensures ts.Canon(x) == x && Stored(ts, now, x) {
      StillStored(ts, was, now, contents, x, key, i);
    }
  }

  class InstanceMap<V(==)> {
    const ts: Types
    var data: Data<V>
    var len: int
    ghost var contents: map<Instance, V>

    ghost predicate Valid()
      reads this
    {
      len == |contents| && Represents(ts, data, contents)
    }

    constructor (ts: Types)
      requires ts.Respect()
      ensures Valid() && contents == map[] && this.ts == ts
    {
      this.ts, data, len, contents := ts, map[], 0, map[];
    }

    /** findIndex: the bucket and the place, or -1 exactly when the key is not in the map. */
    method FindIndex(key: Instance) returns (bucket: Bucket<V>, i: int)
      requires Valid()
      ensures bucket == BucketAt(data, key.obj, ts.hash(key.args))
      ensures i == -1 <==> ts.Canon(key) !in contents
      ensures i != -1 ==>
                0 <= i < |bucket| && ts.Matches(key, bucket[i]) && bucket[i].value.value == contents[ts.Canon(key)]
    {
      hide Represents, BucketAt;
      bucket := BucketAt(data, key.obj, ts.hash(key.args));
      i := 0;
      while i < |bucket|
        invariant 0 <= i <= |bucket| && forall j | 0 <= j < i :: !ts.Matches(key, bucket[j])
      {
        if ts.Matches(key, bucket[i]) {
          FoundAt(ts, data, contents, key, i);
          return;
        }
        i := i + 1;
      }
      NotFound(ts, data, contents, key);
      i := -1;
    }

    method Get(key: Instance) returns (r: Option<V>)
      requires Valid()
      ensures r == if ts.Canon(key) in contents then Some(contents[ts.Canon(key)]) else None
    {
      var bucket, i := FindIndex(key);
      if i >= 0 { return Some(bucket[i].value.value); }
      return None;
    }

    method Has(key: Instance) returns (b: bool)
      requires Valid()
      ensures b <==> ts.Canon(key) in contents
    {
      var r := Get(key);
      return r.Some?;
    }

    method Len() returns (n: int)
      requires Valid()
      ensures n == |contents|
    {
      return len;
    }

    method PutBucket(key: Instance, bucket: Bucket<V>)
      modifies this`data
      ensures OneBucket(ts, old(data), data, key, bucket)
    {
      var h := ts.hash(key.args);
      if key.obj !in data { data := data[key.obj := map[]]; }
      data := data[key.obj := data[key.obj][h := bucket]];
    }

    /** An entry goes into its place, in which a hole or the entry of the same key was. */
    method PutEntry(key: Instance, i: nat, e: Entry<V>)
      requires Represents(ts, data, contents)
      requires var b := BucketAt(data, key.obj, ts.hash(key.args));
               && i <= |b| && (forall j | 0 <= j < |b| && j != i :: !ts.Matches(key, b[j]))
               && (i < |b| && b[i].Some? ==> ts.Matches(key, b[i]))
      requires e.key.obj == key.obj && ts.canon(e.key.args) == ts.canon(key.args)
      modifies this`data, this`contents
      ensures Represents(ts, data, contents) && contents == old(contents)[ts.Canon(key) := e.value]
    {
      var b := BucketAt(data, key.obj, ts.hash(key.args));
      hide Represents, OneBucket, BucketAt;
      PutBucket(key, if i < |b| then b[i := Some(e)] else b + [Some(e)]);
      SetRepresents(ts, old(data), data, contents, key, i, e);
      contents := contents[ts.Canon(key) := e.value];
    }

    method PutHole(key: Instance, i: nat)
      requires Represents(ts, data, contents)
      requires var b := BucketAt(data, key.obj, ts.hash(key.args)); i < |b| && ts.Matches(key, b[i])
      modifies this`data, this`contents
      ensures Represents(ts, data, contents) && contents == old(contents) - {ts.Canon(key)}
    {
      var b := BucketAt(data, key.obj, ts.hash(key.args));
      hide Represents, OneBucket, BucketAt;
      PutBucket(key, b[i := None]);
      DeleteRepresents(ts, old(data), data, contents, key, i);
      contents := contents - {ts.Canon(key)};
    }

    /** The loop of Set: the place of the key's entry, or -1 with the last hole, or -1. */
    method Scan(key: Instance, bucket: Bucket<V>) returns (i: int, hole: int)
      ensures i != -1 ==> 0 <= i < |bucket| && ts.Matches(key, bucket[i])
      ensures i == -1 ==> forall j | 0 <= j < |bucket| :: !ts.Matches(key, bucket[j])
      ensures -1 <= hole < |bucket| && (hole >= 0 ==> bucket[hole].None?)
    {
      i, hole := 0, -1;
      while i < |bucket|
        invariant 0 <= i <= |bucket| && -1 <= hole < i && (hole >= 0 ==> bucket[hole].None?)
        invariant forall j | 0 <= j < i :: !ts.Matches(key, bucket[j])
      {
        if bucket[i].None? {
          hole := i;
        } else if ts.Matches(key, bucket[i]) {
          return;
        }
        i := i + 1;
      }
      i := -1;
    }

    /** Set: an entry with the key gets the value; otherwise the last hole, or a new place, gets the
        entry. */
    method Set(key: Instance, value: V) returns (previous: Option<V>)
      requires Valid()
      modifies this
      ensures Valid() && contents == old(contents)[ts.Canon(key) := value]
      ensures previous == if ts.Canon(key) in old(contents) then Some(old(contents)[ts.Canon(key)]) else None
    {
      hide Represents, BucketAt;
      var bucket := BucketAt(data, key.obj, ts.hash(key.args));
      var i, hole := Scan(key, bucket);
      if i >= 0 {
        FoundAt(ts, data, contents, key, i);
        previous := Some(bucket[i].value.value);
        MatchesOnce(ts, data, contents, key, i);
        MapKeeps(contents, ts.Canon(key), value);
        PutEntry(key, i, Entry(bucket[i].value.key, value));
      } else {
        NotFound(ts, data, contents, key);
        previous := None;
        MapGrows(contents, ts.Canon(key), value);
        PutEntry(key, if hole >= 0 then hole else |bucket|, Entry(key, value));
        len := len + 1;
      }
    }

    method Delete(key: Instance) returns (found: bool)
      requires Valid()
      modifies this
      ensures Valid() && found == (ts.Canon(key) in old(contents)) && contents == old(contents) - {ts.Canon(key)}
    {
      hide Represents, BucketAt;
      var bucket, i := FindIndex(key);
      if i < 0 {
        assert contents - {ts.Canon(key)} == contents;
        return false;
      }
      MapShrinks(contents, ts.Canon(key));
      PutHole(key, i);
      len := len - 1;
      return true;
    }

    /** Iterate: every entry that is not a hole, once, in whatever order the maps give their keys. */
    method Iterate() returns (visited: seq<Entry<V>>)
      requires Valid()
      ensures forall i | 0 <= i < |visited| ::
                ts.Canon(visited[i].key) in contents && contents[ts.Canon(visited[i].key)] == visited[i].value
      ensures forall i, j | 0 <= i < j < |visited| :: ts.Canon(visited[i].key) != ts.Canon(visited[j].key)
      ensures forall k | k in contents :: exists i :: 0 <= i < |visited| && ts.Canon(visited[i].key) == k
    {
      visited := [];
      ghost var places: seq<Place> := [];
      var objects := data.Keys;
      while objects != {}
        invariant objects <= data.Keys && Visited(data, visited, places)
        invariant forall p | LiveAt(data, p) :: p in places <==> p.o !in objects
        decreases objects
      {
        var o :| o in objects;
        objects := objects - {o};
        visited, places := IterateObject(o, visited, places, objects);
      }
      AllVisited(ts, data, contents, visited, places);
    }

    method IterateObject(o: Object, before: seq<Entry<V>>, ghost placesBefore: seq<Place>, ghost objects: set<Object>)
      returns (visited: seq<Entry<V>>, ghost places: seq<Place>)
      requires o in data && o !in objects && Visited(data, before, placesBefore)
      requires forall p | LiveAt(data, p) :: p in placesBefore <==> p.o !in objects && p.o != o
      ensures Visited(data, visited, places)
      ensures forall p | LiveAt(data, p) :: p in places <==> p.o !in objects
    {
      visited, places := before, placesBefore;
      var hashes := data[o].Keys;
      while hashes != {}
        invariant hashes <= data[o].Keys && Visited(data, visited, places)
        invariant forall p | LiveAt(data, p) :: p in places <==> p.o !in objects && (p.o == o ==> p.h !in hashes)
        decreases hashes
      {
        var h :| h in hashes;
        hashes := hashes - {h};
        ghost var was := places;
        var bucket := data[o][h];
        for i := 0 to |bucket|
          invariant Visited(data, visited, places)
          invariant forall p | LiveAt(data, p) :: p in places <==> p in was || (p.o == o && p.h == h && p.i < i)
        {
          if bucket[i].Some? {
            visited, places := visited + [bucket[i].value], places + [Place(o, h, i)];
          }
        }
      }
    }
  }

  datatype Place = Place(o: Object, h: nat, i: nat)

  predicate LiveAt<V>(data: Data<V>, p: Place) {
    p.o in data && p.h in data[p.o] && p.i < |data[p.o][p.h]| && data[p.o][p.h][p.i].Some?
  }

  /** Entries with the places they come from, no place twice. */
  predicate Visited<V(==)>(data: Data<V>, visited: seq<Entry<V>>, places: seq<Place>) {
    && |places| == |visited|
    && (forall n | 0 <= n < |places| ::
          LiveAt(data, places[n]) && visited[n] == data[places[n].o][places[n].h][places[n].i].value)
    && (forall m, n | 0 <= m < n < |places| :: places[m] != places[n])
  }

  lemma AllVisited<V>(ts: Types, data: Data<V>, contents: map<Instance, V>, visited: seq<Entry<V>>, places: seq<Place>)
    requires Represents(ts, data, contents) && Visited(data, visited, places)
             && forall p | LiveAt(data, p) :: p in places
    ensures forall i | 0 <= i < |visited| ::
              ts.Canon(visited[i].key) in contents && contents[ts.Canon(visited[i].key)] == visited[i].value
    ensures forall i, j | 0 <= i < j < |visited| :: ts.Canon(visited[i].key) != ts.Canon(visited[j].key)
    ensures forall k | k in contents :: exists i :: 0 <= i < |visited| && ts.Canon(visited[i].key) == k
  {
    hide Represents;
    forall i | 0 <= i < |visited|
      ensures ts.Canon(visited[i].key) in contents && contents[ts.Canon(visited[i].key)] == visited[i].value
    {
      LiveIsStored(ts, data, contents, places[i]);
    }
    forall i, j | 0 <= i < j < |visited| ensures ts.Canon(visited[i].key) != ts.Canon(visited[j].key) {
      if ts.Canon(visited[i].key) == ts.Canon(visited[j].key) {
        SameKeySamePlace(ts, data, contents, places[i], places[j]);
      }
    }
    forall k | k in contents ensures exists i :: 0 <= i < |visited| && ts.Canon(visited[i].key) == k {
      var p := StoredIsLive(ts, data, contents, k);
      var n :| 0 <= n < |places| && places[n] == p;
      assert ts.Canon(visited[n].key) == k;
    }
  }

  lemma LiveIsStored<V>(ts: Types, data: Data<V>, contents: map<Instance, V>, p: Place)
    requires Represents(ts, data, contents) && LiveAt(data, p)
    ensures var e := data[p.o][p.h][p.i].value; ts.Canon(e.key) in contents && contents[ts.Canon(e.key)] == e.value
  {
    assert BucketOk(ts, p.o, p.h, BucketAt(data, p.o, p.h), contents);
  }

  lemma StoredIsLive<V>(ts: Types, data: Data<V>, contents: map<Instance, V>, k: Instance) returns (p: Place)
    requires Represents(ts, data, contents) && k in contents
    ensures LiveAt(data, p) && ts.Canon(data[p.o][p.h][p.i].value.key) == k
  {
    var b := BucketAt(data, k.obj, ts.hash(k.args));
    Found(ts, data, contents, k);
    assert ts.Canon(k) == k;
    var i :| 0 <= i < |b| && ts.Matches(k, b[i]);
    p := Place(k.obj, ts.hash(k.args), i);
  }

  lemma SameKeySamePlace<V>(ts: Types, data: Data<V>, contents: map<Instance, V>, p: Place, q: Place)
    requires Represents(ts, data, contents) && LiveAt(data, p) && LiveAt(data, q)
    requires ts.Canon(data[p.o][p.h][p.i].value.key) == ts.Canon(data[q.o][q.h][q.i].value.key)
    ensures p == q
  {
    assert BucketOk(ts, p.o, p.h, BucketAt(data, p.o, p.h), contents);
    assert BucketOk(ts, q.o, q.h, BucketAt(data, q.o, q.h), contents);
    var k, l := data[p.o][p.h][p.i].value.key, data[q.o][q.h][q.i].value.key;
    assert ts.hash(ts.canon(k.args)) == ts.hash(k.args) && ts.hash(ts.canon(l.args)) == ts.hash(l.args);
    assert p.o == q.o && p.h == q.h;
  }

  /** One key has one entry. */
  lemma MatchesOnce<V>(ts: Types, data: Data<V>, contents: map<Instance, V>, key: Instance, i: nat)
    requires Represents(ts, data, contents) && i < |BucketAt(data, key.obj, ts.hash(key.args))|
    requires ts.Matches(key, BucketAt(data, key.obj, ts.hash(key.args))[i])
    ensures forall j | 0 <= j < |BucketAt(data, key.obj, ts.hash(key.args))| && j != i ::
              !ts.Matches(key, BucketAt(data, key.obj, ts.hash(key.args))[j])
  {
    assert BucketOk(ts, key.obj, ts.hash(key.args), BucketAt(data, key.obj, ts.hash(key.args)), contents);
  }

  // ----- instance sets -----

  class InstanceSet {
    var values: seq<Instance>
    var unprocessed: nat
    const seen: InstanceMap<int>

    /** The numbers are the places in `values`, which has no instance twice. */
    ghost predicate Valid()
      reads this, seen
    {
      && seen.Valid() && unprocessed <= |values| && |seen.contents| == |values|
      && (forall i | 0 <= i < |values| ::
            seen.ts.Canon(values[i]) in seen.contents && seen.contents[seen.ts.Canon(values[i])] == i)
      && (forall k | k in seen.contents ::
            0 <= seen.contents[k] < |values| && seen.ts.Canon(values[seen.contents[k]]) == k)
    }

    constructor (ts: Types)
      requires ts.Respect()
      ensures Valid() && values == [] && unprocessed == 0 && fresh(seen) && seen.ts == ts
    {
      values, unprocessed := [], 0;
      seen := new InstanceMap(ts);
    }

    predicate InSet(inst: Instance, all: seq<Instance>) {
      exists i | 0 <= i < |all| :: seen.ts.Canon(all[i]) == seen.ts.Canon(inst)
    }

    /** Instances that are new go to the end, in order; the others change nothing. */
    function Added(all: seq<Instance>, instances: seq<Instance>): seq<Instance>
      decreases |instances|
    {
      if instances == [] then all
      else Added(if InSet(instances[0], all) then all else all + [instances[0]], instances[1..])
    }

    /** After Add an instance is in the set if it was or is one of the new ones, and no place has moved. */
    lemma {:induction false} AddedIs(all: seq<Instance>, instances: seq<Instance>, inst: Instance)
      ensures all <= Added(all, instances)
      ensures InSet(inst, Added(all, instances)) <==> InSet(inst, all) || InSet(inst, instances)
      decreases |instances|
    {
      if instances != [] {
        var next := if InSet(instances[0], all) then all else all + [instances[0]];
        AddedIs(next, instances[1..], inst);
        InAppended(inst, all, instances[0]);
        InTail(inst, instances);
        hide InSet;
      }
    }

    lemma InAppended(inst: Instance, all: seq<Instance>, x: Instance)
      ensures InSet(inst, all + [x]) <==> InSet(inst, all) || seen.ts.Canon(inst) == seen.ts.Canon(x)
      ensures seen.ts.Canon(inst) == seen.ts.Canon(x) ==> (InSet(inst, all) <==> InSet(x, all))
    {
      if InSet(inst, all) {
        var i :| 0 <= i < |all| && seen.ts.Canon(all[i]) == seen.ts.Canon(inst);
        assert (all + [x])[i] == all[i];
      }
      assert (all + [x])[|all|] == x;
    }

    lemma InTail(inst: Instance, instances: seq<Instance>)
      requires instances != []
      ensures InSet(inst, instances) <==>
                seen.ts.Canon(inst) == seen.ts.Canon(instances[0]) || InSet(inst, instances[1..])
    {
      if InSet(inst, instances[1..]) {
        var i :| 0 <= i < |instances[1..]| && seen.ts.Canon(instances[1..][i]) == seen.ts.Canon(inst);
        assert instances[i + 1] == instances[1..][i];
      }
      if InSet(inst, instances) {
        var i :| 0 <= i < |instances| && seen.ts.Canon(instances[i]) == seen.ts.Canon(inst);
        if i > 0 { assert instances[1..][i - 1] == instances[i]; }
      }
    }

    method Add(instances: seq<Instance>)
      requires Valid()
      modifies this`values, seen
      ensures Valid() && values == Added(old(values), instances)
    {
      hide Valid, InSet;
      for n := 0 to |instances|
        invariant Valid() && Added(values, instances[n..]) == Added(old(values), instances)
      {
        assert instances[n..][0] == instances[n] && instances[n..][1..] == instances[n + 1..];
        AddOne(instances[n]);
      }
      assert instances[|instances|..] == [];
    }

    method AddOne(inst: Instance)
      requires Valid()
      modifies this`values, seen
      ensures Valid() && values == if InSet(inst, old(values)) then old(values) else old(values) + [inst]
    {
      hide Represents;
      var has := seen.Has(inst);
      if has {
        assert seen.ts.Canon(values[seen.contents[seen.ts.Canon(inst)]]) == seen.ts.Canon(inst);
        return;
      }
      var n := seen.Len();
      MapGrows(seen.contents, seen.ts.Canon(inst), n);
      var _ := seen.Set(inst, n);
      values := values + [inst];
    }

    /** ID: the place at which the instance was added; None where the program panics. */
    method ID(inst: Instance) returns (id: Option<int>)
      requires Valid()
      ensures id.Some? <==> InSet(inst, values)
      ensures id.Some? ==> 0 <= id.value < |values| && seen.ts.Canon(values[id.value]) == seen.ts.Canon(inst)
    {
      id := seen.Get(inst);
    }

    predicate Exhausted()
      reads this
    {
      |values| <= unprocessed
    }

    /** next: the instances come out in the order in which they were added, each once. */
    method Next() returns (r: Option<Instance>)
      requires Valid()
      modifies this`unprocessed
      ensures Valid()
      ensures r.None? <==> old(unprocessed) == |values|
      ensures r.None? ==> unprocessed == old(unprocessed)
      ensures r.Some? ==> unprocessed == old(unprocessed) + 1 && r.value == values[old(unprocessed)]
    {
      hide Represents;
      if Exhausted() { return None; }
      r := Some(values[unprocessed]);
      unprocessed := unprocessed + 1;
    }

    /** Two places hold different instances, so none is handed out twice. */
    lemma ValuesDistinct(i: nat, j: nat)
      requires Valid() && i < j < |values|
      ensures seen.ts.Canon(values[i]) != seen.ts.Canon(values[j])
    {
      assert seen.contents[seen.ts.Canon(values[i])] == i && seen.contents[seen.ts.Canon(values[j])] == j;
    }
  }

  lemma MapKeeps<V>(m: map<Instance, V>, k: Instance, v: V)
    requires k in m
    ensures |m[k := v]| == |m|
  {
    assert m[k := v].Keys == m.Keys;
    assert |m[k := v]| == |m[k := v].Keys| && |m| == |m.Keys|;
  }

  lemma MapGrows<V>(m: map<Instance, V>, k: Instance, v: V)
    requires k !in m
    ensures |m[k := v]| == |m| + 1
  {
    assert m[k := v].Keys == m.Keys + {k};
    assert |m[k := v]| == |m[k := v].Keys| && |m| == |m.Keys|;
  }

  lemma MapShrinks<V>(m: map<Instance, V>, k: Instance)
    requires k in m
    ensures |m - {k}| == |m| - 1
  {
    assert (m - {k}).Keys == m.Keys - {k};
    assert |m - {k}| == |(m - {k}).Keys| && |m| == |m.Keys|;
  }
}
