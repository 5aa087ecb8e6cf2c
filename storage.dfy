/** The service's collaborators as abstract in-memory state: the document store (users and files
    collections, each kept in insertion order), the session cache, the blob store and the job queues,
    together with the queries the handlers issue against them. */
module Storage {

  import opened Records

  /** `order` lists every key of a collection exactly once, in insertion (natural) order. */
  ghost predicate Indexes(order: seq<string>, keys: set<string>) {
    && (forall i :: 0 <= i < |order| ==> order[i] in keys)
    && (forall k :: k in keys ==> k in order)
    && (forall i, j :: 0 <= i < j < |order| ==> order[i] != order[j])
  }

  /** The document store: the users and files collections keyed by their ObjectId hex text. */
  class Db {
    var users: map<string, UserDoc>
    var userOrder: seq<string>
    var files: map<string, FileDoc>
    var fileOrder: seq<string>

    ghost predicate Valid()
      reads this
    {
      Indexes(userOrder, users.Keys) && Indexes(fileOrder, files.Keys)
    }

    constructor ()
      ensures Valid()
      ensures users == map[] && userOrder == [] && files == map[] && fileOrder == []
    {
      users, userOrder, files, fileOrder := map[], [], map[], [];
    }

    /** `filesCollection.insertOne(doc)`, the store assigning the fresh id `id`. */
    method InsertFile(id: string, doc: FileDoc)
      requires Valid() && id !in files
      modifies this
      ensures Valid()
      ensures files == old(files)[id := doc] && fileOrder == old(fileOrder) + [id]
      ensures users == old(users) && userOrder == old(userOrder)
    {
      files := files[id := doc];
      fileOrder := fileOrder + [id];
    }

    /** `usersCollection.insertOne(doc)`, the store assigning the fresh id `id`. */
    method InsertUser(id: string, doc: UserDoc)
      requires Valid() && id !in users
      modifies this
      ensures Valid()
      ensures users == old(users)[id := doc] && userOrder == old(userOrder) + [id]
      ensures files == old(files) && fileOrder == old(fileOrder)
    {
      users := users[id := doc];
      userOrder := userOrder + [id];
    }

    /** `filesCollection.updateOne({_id: id}, {$set: {isPublic: b}})`. */
    method SetIsPublic(id: string, b: bool)
      requires Valid()
      modifies this
      ensures Valid()
      ensures files == WithPublic(old(files), id, b) && fileOrder == old(fileOrder)
      ensures users == old(users) && userOrder == old(userOrder)
    {
      files := WithPublic(files, id, b);
    }
  }

  /** The files collection after `$set: {isPublic: b}` on the document `id` (no change when it is absent). */
  function WithPublic(files: map<string, FileDoc>, id: string, b: bool): (r: map<string, FileDoc>)
    ensures r.Keys == files.Keys
    ensures id in files ==> r[id] == files[id].(isPublic := b)
    ensures forall k :: k in files && k != id ==> r[k] == files[k]
  {
    if id in files then files[id := files[id].(isPublic := b)] else files
  }

  /** Setting the flag twice to the same value is the same as setting it once. */
  lemma PublishIdempotent(files: map<string, FileDoc>, id: string, b: bool)
    ensures WithPublic(WithPublic(files, id, b), id, b) == WithPublic(files, id, b)
  {
  }

  /** The owner test `userId: ObjectId(uid)` of a query: only an ObjectId-valued owner field matches. */
  predicate OwnedBy(doc: FileDoc, uid: string) {
    doc.userId == Oid(uid)
  }

  /** `filesCollection.findOne({_id: ObjectId(id), userId: ObjectId(uid)})`. */
  function FindOwned(files: map<string, FileDoc>, id: string, uid: string): (r: Option<FileDoc>)
    ensures r.Some? <==> id in files && OwnedBy(files[id], uid)
    ensures r.Some? ==> r.value == files[id]
  {
    if id in files && OwnedBy(files[id], uid) then Some(files[id]) else None
  }

  /** The test of `usersCollection.findOne({email})` (password None) or `findOne({email, password})`. */
  predicate UserMatches(doc: UserDoc, email: string, password: Option<string>) {
    doc.email == email && (password.Some? ==> doc.password == password.value)
  }

  /** `usersCollection.findOne(...)`: the first matching user in natural order. */
  function FindUser(users: map<string, UserDoc>, order: seq<string>, email: string, password: Option<string>)
    : (r: Option<string>)
    ensures r.Some? ==> r.value in users && r.value in order && UserMatches(users[r.value], email, password)
    ensures r.None? ==> forall i :: 0 <= i < |order| && order[i] in users ==> !UserMatches(users[order[i]], email, password)
    decreases |order|
  {
    if |order| == 0 then None
    else if order[0] in users && UserMatches(users[order[0]], email, password) then Some(order[0])
    else
      var r := FindUser(users, order[1..], email, password);
      assert forall i :: 1 <= i < |order| ==> order[i] == order[1..][i - 1];
      r
  }

  /** With an index of the collection, findOne misses exactly when no user matches at all. */
  lemma FindUserComplete(users: map<string, UserDoc>, order: seq<string>, email: string, password: Option<string>)
    requires Indexes(order, users.Keys)
    ensures FindUser(users, order, email, password).None?
        <==> forall id :: id in users ==> !UserMatches(users[id], email, password)
  {
    if FindUser(users, order, email, password).None? {
      forall id | id in users
        ensures !UserMatches(users[id], email, password)
      {
        var i :| 0 <= i < |order| && order[i] == id;
      }
    }
  }

  /** `filesCollection.find({userId: owner, parentId: parent})`: ids of matching documents in natural order. */
  function Matching(files: map<string, FileDoc>, order: seq<string>, owner: IdVal, parent: IdVal)
    : (r: seq<string>)
    ensures forall x :: x in r <==> x in order && x in files && files[x].userId == owner && files[x].parentId == parent
    ensures |r| <= |order|
    decreases |order|
  {
    if |order| == 0 then []
    else
      var rest := Matching(files, order[1..], owner, parent);
      assert order == [order[0]] + order[1..];
      var id := order[0];
      if id in files && files[id].userId == owner && files[id].parentId == parent then [id] + rest else rest
  }

  /** `x` sits at an earlier position of `order` than `y`. */
  ghost predicate Precedes(order: seq<string>, x: string, y: string) {
    exists a, b :: 0 <= a < b < |order| && order[a] == x && order[b] == y
  }

  /** Matching keeps the store's order: of any two results, the earlier one sits at an earlier position of
      the natural order than the later one. */
  lemma {:induction false} MatchingInOrder(files: map<string, FileDoc>, order: seq<string>, owner: IdVal, parent: IdVal)
    ensures forall i, j :: 0 <= i < j < |Matching(files, order, owner, parent)| ==>
              Precedes(order, Matching(files, order, owner, parent)[i], Matching(files, order, owner, parent)[j])
    decreases |order|
  {
    var r := Matching(files, order, owner, parent);
    if |order| > 0 {
      var tail := order[1..];
      MatchingInOrder(files, tail, owner, parent);
      var rest := Matching(files, tail, owner, parent);
      var id := order[0];
      forall i, j | 0 <= i < j < |r|
        ensures Precedes(order, r[i], r[j])
      {
        if id in files && files[id].userId == owner && files[id].parentId == parent {
          assert r == [id] + rest;
          if i == 0 {
            assert r[j] == rest[j - 1] && rest[j - 1] in tail;
            var b' :| 0 <= b' < |tail| && tail[b'] == r[j];
            assert order[0] == r[i] && order[b' + 1] == r[j];
          } else {
            assert Precedes(tail, rest[i - 1], rest[j - 1]);
            var a', b' :| 0 <= a' < b' < |tail| && tail[a'] == rest[i - 1] && tail[b'] == rest[j - 1];
            assert order[a' + 1] == r[i] && order[b' + 1] == r[j];
          }
        } else {
          assert r == rest;
          assert Precedes(tail, rest[i], rest[j]);
          var a', b' :| 0 <= a' < b' < |tail| && tail[a'] == rest[i] && tail[b'] == rest[j];
          assert order[a' + 1] == r[i] && order[b' + 1] == r[j];
        }
      }
    }
  }

  /** Matching repeats no id when the natural order repeats none. */
  lemma {:induction false} MatchingNoDuplicates(files: map<string, FileDoc>, order: seq<string>, owner: IdVal, parent: IdVal)
    requires forall i, j :: 0 <= i < j < |order| ==> order[i] != order[j]
    ensures forall i, j :: 0 <= i < j < |Matching(files, order, owner, parent)| ==>
              Matching(files, order, owner, parent)[i] != Matching(files, order, owner, parent)[j]
    decreases |order|
  {
    if |order| > 0 {
      MatchingNoDuplicates(files, order[1..], owner, parent);
      var rest := Matching(files, order[1..], owner, parent);
      assert order[0] !in order[1..];
      assert order[0] !in rest;
      var r := Matching(files, order, owner, parent);
      if r != rest {
        assert r == [order[0]] + rest;
        forall i, j | 0 <= i < j < |r|
          ensures r[i] != r[j]
        {
          assert r[j] == rest[j - 1] && rest[j - 1] in rest;
          if i > 0 {
            assert r[i] == rest[i - 1];
          } else {
            assert r[i] == order[0];
          }
        }
      }
    }
  }

  /** A session cache entry: the stored value and the time-to-live it was written with. */
  datatype Entry = Entry(value: string, ttlSeconds: nat)

  /** The key-value cache. Expiry is not modelled: an entry stays until it is deleted. */
  class Cache {
    var entries: map<string, Entry>

    constructor ()
      ensures entries == map[]
    {
      entries := map[];
    }

    /** `redisClient.set(key, value, ttl)`. */
    method Set(key: string, value: string, ttl: nat)
      modifies this
      ensures entries == old(entries)[key := Entry(value, ttl)]
    {
      entries := entries[key := Entry(value, ttl)];
    }

    /** `redisClient.del(key)`. */
    method Del(key: string)
      modifies this
      ensures entries == old(entries) - {key}
    {
      entries := entries - {key};
    }
  }

  /** The blob store: file contents by path. */
  class Disk {
    var blobs: map<string, Bytes>

    constructor ()
      ensures blobs == map[]
    {
      blobs := map[];
    }

    /** `writeFile(path, data)`: creates or overwrites. */
    method WriteFile(path: string, data: Bytes)
      modifies this
      ensures blobs == old(blobs)[path := data]
    {
      blobs := blobs[path := data];
    }
  }

  /** A job queue; jobs are only ever appended by the handlers. */
  class JobQueue<T> {
    var jobs: seq<T>

    constructor ()
      ensures jobs == []
    {
      jobs := [];
    }

    /** `queue.add(job)`. */
    method Add(job: T)
      modifies this
      ensures jobs == old(jobs) + [job]
    {
      jobs := jobs + [job];
    }
  }
}
