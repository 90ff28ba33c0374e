/**
 * The document collections the gateway keeps its zones and users in, as
 * the handlers use them: `findOne` and `find` on one field, `updateOne`
 * with `$set` and `$unset`, `updateOne` with `$setOnInsert` and `upsert`,
 * and `deleteOne`. A collection is the sequence of its documents in
 * insertion order, and `findOne` returns the first match in that order.
 * The split of a partial update into its `$set` and `$unset` parts, which
 * `updateZone` and `updateUser` perform, and the entry shape of the
 * time-to-live memory caches kept in front of the collections are here too.
 */
module Store {
  import opened Wrappers
  import opened Types

  /** An entry of a process-local memory cache: the value and the `Date.now()` at which it was stored. */
  datatype Cached<+T> = Cached(value: T, timestamp: int)

  /** `c && Date.now() - c.timestamp < ttl` */
  predicate IsFresh<T>(cache: map<string, Cached<T>>, key: string, now: int, ttl: int) {
    key in cache && now - cache[key].timestamp < ttl
  }

  /** Deleting a key a map does not hold leaves the map as it was. */
  lemma RemoveAbsentKey<T>(m: map<string, T>, k: string)
    requires k !in m
    ensures m - {k} == m
  {
    assert (m - {k}).Keys == m.Keys;
  }

  /** The filter `{ key: v }` selects the document. */
  predicate Matches(d: Doc, key: Field, v: Value) {
    key in d && d[key] == v
  }

  /** The position of the first document matching `{ key: v }`. */
  function FindIndex(docs: seq<Doc>, key: Field, v: Value): (r: Option<nat>)
    ensures r.Some? ==> r.value < |docs| && Matches(docs[r.value], key, v)
    ensures r.Some? ==> forall j | 0 <= j < r.value :: !Matches(docs[j], key, v)
    ensures r.None? <==> forall j | 0 <= j < |docs| :: !Matches(docs[j], key, v)
  {
    FindFrom(docs, key, v, 0)
  }

  /** The position of the first document at or after `k` matching `{ key: v }`. */
  function FindFrom(docs: seq<Doc>, key: Field, v: Value, k: nat): (r: Option<nat>)
    requires k <= |docs|
    ensures r.Some? ==> k <= r.value < |docs| && Matches(docs[r.value], key, v)
    ensures r.Some? ==> forall j | k <= j < r.value :: !Matches(docs[j], key, v)
    ensures r.None? <==> forall j | k <= j < |docs| :: !Matches(docs[j], key, v)
    decreases |docs| - k
  {
    if k == |docs| then None
    else if Matches(docs[k], key, v) then Some(k)
    else FindFrom(docs, key, v, k + 1)
  }

  /** `findOne({ key: v })`. */
  function FindOne(docs: seq<Doc>, key: Field, v: Value): (r: Option<Doc>)
    ensures r.Some? ==> Matches(r.value, key, v)
    ensures r.None? <==> forall j | 0 <= j < |docs| :: !Matches(docs[j], key, v)
  {
    match FindIndex(docs, key, v)
    case Some(i) => Some(docs[i])
    case None => None
  }

  /** `find({ key: v }).toArray()`: every matching document, in order. */
  function FindAll(docs: seq<Doc>, key: Field, v: Value): (r: seq<Doc>)
    ensures forall d | d in r :: Matches(d, key, v) && d in docs
    ensures forall d | d in docs && Matches(d, key, v) :: d in r
    ensures |r| <= |docs|
  {
    if |docs| == 0 then []
    else
      assert docs == [docs[0]] + docs[1..];
      (if Matches(docs[0], key, v) then [docs[0]] else []) + FindAll(docs[1..], key, v)
  }

  /**
   * The matches of two runs of documents are the matches of the first run
   * followed by those of the second: together with the one-document case
   * this fixes the order and the multiplicity of what `find` returns.
   */
  lemma {:induction false} FindAllConcat(a: seq<Doc>, b: seq<Doc>, key: Field, v: Value)
    ensures FindAll(a + b, key, v) == FindAll(a, key, v) + FindAll(b, key, v)
    decreases |a|
  {
    if |a| == 0 {
      assert a + b == b;
    } else {
      var head := if Matches(a[0], key, v) then [a[0]] else [];
      var x, y := FindAll(a[1..], key, v), FindAll(b, key, v);
      calc {
        FindAll(a + b, key, v);
        { assert (a + b)[0] == a[0] && (a + b)[1..] == a[1..] + b; }
        head + FindAll(a[1..] + b, key, v);
        { FindAllConcat(a[1..], b, key, v); }
        head + (x + y);
        (head + x) + y;
      }
    }
  }

  /** `find` keeps every matching document as many times as the collection holds it, and no other. */
  lemma {:induction false} FindAllCounts(docs: seq<Doc>, key: Field, v: Value, d: Doc)
    ensures multiset(FindAll(docs, key, v))[d] == if Matches(d, key, v) then multiset(docs)[d] else 0
    decreases |docs|
  {
    if |docs| > 0 {
      FindAllCounts(docs[1..], key, v, d);
      assert docs == [docs[0]] + docs[1..];
    }
  }

  /** A single document is returned by `find` exactly when it matches. */
  lemma FindAllSingle(d: Doc, key: Field, v: Value)
    ensures FindAll([d], key, v) == if Matches(d, key, v) then [d] else []
  {
    assert [d][1..] == [];
  }

  /** `{ $set: toSet, $unset: toUnset }` applied to one document. */
  function ApplyUpdate(d: Doc, toSet: map<Field, Value>, toUnset: set<Field>): (r: Doc)
    ensures forall k | k in toSet :: k in r && r[k] == toSet[k]
    ensures forall k | k in toUnset && k !in toSet :: k !in r
    ensures forall k | k !in toSet && k !in toUnset :: (k in r <==> k in d) && (k in d ==> r[k] == d[k])
  {
    (d - toUnset) + toSet
  }

  /** `updateOne({ key: v }, { $set, $unset })`: only the first match changes; no match changes nothing. */
  function UpdateOne(docs: seq<Doc>, key: Field, v: Value, toSet: map<Field, Value>, toUnset: set<Field>): (r: seq<Doc>)
    ensures |r| == |docs|
    ensures FindIndex(docs, key, v).None? ==> r == docs
    ensures FindIndex(docs, key, v).Some? ==>
      var i := FindIndex(docs, key, v).value; r == docs[i := ApplyUpdate(docs[i], toSet, toUnset)]
  {
    match FindIndex(docs, key, v)
    case Some(i) => docs[i := ApplyUpdate(docs[i], toSet, toUnset)]
    case None => docs
  }

  /**
   * `updateOne({ key: doc[key] }, { $setOnInsert: doc }, { upsert: true })`:
   * the document is added at the end when none matches, and nothing changes otherwise.
   */
  function InsertIfAbsent(docs: seq<Doc>, key: Field, doc: Doc): (r: seq<Doc>)
    requires key in doc
    ensures FindIndex(docs, key, doc[key]).Some? ==> r == docs
    ensures FindIndex(docs, key, doc[key]).None? ==> r == docs + [doc]
  {
    if FindIndex(docs, key, doc[key]).Some? then docs else docs + [doc]
  }

  /** `deleteOne({ key: v })`: the first match is removed, the others keep their order. */
  function DeleteOne(docs: seq<Doc>, key: Field, v: Value): (r: seq<Doc>)
    ensures FindIndex(docs, key, v).None? ==> r == docs
    ensures FindIndex(docs, key, v).Some? ==>
      var i := FindIndex(docs, key, v).value; r == docs[..i] + docs[i + 1..]
  {
    match FindIndex(docs, key, v)
    case Some(i) => docs[..i] + docs[i + 1..]
    case None => docs
  }

  /** A document that matches, with no match before it, is the one `FindIndex` selects. */
  lemma FirstMatchIsFound(docs: seq<Doc>, key: Field, v: Value, j: nat)
    requires j < |docs| && Matches(docs[j], key, v)
    requires forall m | 0 <= m < j :: !Matches(docs[m], key, v)
    ensures FindIndex(docs, key, v) == Some(j)
  {
    var r := FindIndex(docs, key, v);
    assert r.Some?;
    assert !(r.value < j);
    assert !(r.value > j);
  }

  /** Appending a document does not change what an existing match finds. */
  lemma FindOneAfterAppend(docs: seq<Doc>, d: Doc, key: Field, v: Value)
    requires FindOne(docs, key, v).Some?
    ensures FindOne(docs + [d], key, v) == FindOne(docs, key, v)
  {
    var after := docs + [d];
    var j := FindIndex(docs, key, v).value;
    assert forall m | 0 <= m < |docs| :: after[m] == docs[m];
    FirstMatchIsFound(after, key, v, j);
  }

  /**
   * Replacing a document that the lookup does not select, by one that
   * matches only if the old one did, does not change what the lookup finds.
   */
  lemma FindOneAfterReplace(docs: seq<Doc>, i: nat, d: Doc, key: Field, v: Value)
    requires i < |docs| && FindIndex(docs, key, v) != Some(i)
    requires Matches(d, key, v) ==> Matches(docs[i], key, v)
    ensures FindOne(docs[i := d], key, v) == FindOne(docs, key, v)
  {
    var after := docs[i := d];
    assert forall m | 0 <= m < |docs| && m != i :: after[m] == docs[m];
    match FindIndex(docs, key, v)
    case None =>
      assert forall m | 0 <= m < |after| :: !Matches(after[m], key, v);
    case Some(j) =>
      FirstMatchIsFound(after, key, v, j);
  }

  /** Removing a document the lookup cannot match does not change what the lookup finds. */
  lemma FindOneAfterRemove(docs: seq<Doc>, i: nat, key: Field, v: Value)
    requires i < |docs| && !Matches(docs[i], key, v)
    ensures FindOne(docs[..i] + docs[i + 1..], key, v) == FindOne(docs, key, v)
  {
    var after := docs[..i] + docs[i + 1..];
    match FindIndex(docs, key, v)
    case None =>
      forall m | 0 <= m < |after| ensures !Matches(after[m], key, v) {
        if m < i {
          assert after[m] == docs[m];
        } else {
          assert after[m] == docs[i + 1..][m - i] == docs[m + 1];
        }
      }
    case Some(j) =>
      RemovedIndex(docs, i, key, v, j);
  }

  lemma RemovedIndex(docs: seq<Doc>, i: nat, key: Field, v: Value, j: nat)
    requires i < |docs| && !Matches(docs[i], key, v)
    requires FindIndex(docs, key, v) == Some(j)
    ensures FindIndex(docs[..i] + docs[i + 1..], key, v) == Some(if j < i then j else j - 1)
    ensures (docs[..i] + docs[i + 1..])[if j < i then j else j - 1] == docs[j]
  {
    if j < i {
      RemovedAfterMatch(docs, i, key, v, j);
    } else {
      RemovedBeforeMatch(docs, i, key, v, j);
    }
  }

  lemma RemovedAfterMatch(docs: seq<Doc>, i: nat, key: Field, v: Value, j: nat)
    requires j < i < |docs|
    requires FindIndex(docs, key, v) == Some(j)
    ensures FindIndex(docs[..i] + docs[i + 1..], key, v) == Some(j)
    ensures (docs[..i] + docs[i + 1..])[j] == docs[j]
  {
    var after := docs[..i] + docs[i + 1..];
    forall m | 0 <= m <= j ensures after[m] == docs[m] {}
    FirstMatchIsFound(after, key, v, j);
  }

  lemma RemovedBeforeMatch(docs: seq<Doc>, i: nat, key: Field, v: Value, j: nat)
    requires i < j < |docs|
    requires FindIndex(docs, key, v) == Some(j)
    ensures FindIndex(docs[..i] + docs[i + 1..], key, v) == Some(j - 1)
    ensures (docs[..i] + docs[i + 1..])[j - 1] == docs[j]
  {
    var after := docs[..i] + docs[i + 1..];
    forall m | 0 <= m < j ensures after[m] == if m < i then docs[m] else docs[m + 1] {}
    FirstMatchIsFound(after, key, v, j - 1);
  }

  /**
   * The `for (const key in update)` loop of `updateZone` and `updateUser`:
   * a key whose value is `undefined` (here `None`) goes to `$unset`, every
   * other key goes to `$set` with its value.
   */
  method SplitUpdate(update: map<Field, Option<Value>>) returns (toSet: map<Field, Value>, toUnset: set<Field>)
    ensures toSet.Keys !! toUnset
    ensures toSet.Keys + toUnset == update.Keys
    ensures forall k | k in toSet :: update[k] == Some(toSet[k])
    ensures forall k | k in toUnset :: update[k] == None
    ensures toSet == SetPart(update) && toUnset == UnsetPart(update)
  {
    toSet := map[];
    toUnset := {};
    var remaining := update.Keys;
    while remaining != {}
      invariant remaining <= update.Keys
      invariant toSet.Keys !! toUnset && toSet.Keys !! remaining && toUnset !! remaining
      invariant toSet.Keys + toUnset + remaining == update.Keys
      invariant forall k | k in toSet :: update[k] == Some(toSet[k])
      invariant forall k | k in toUnset :: update[k] == None
      decreases remaining
    {
      var key :| key in remaining;
      if update[key] == None {
        toUnset := toUnset + {key};
      } else {
        toSet := toSet[key := update[key].value];
      }
      remaining := remaining - {key};
    }
    assert toSet.Keys == SetPart(update).Keys;
  }

  /** The defined entries of a partial update: what `$set` receives. */
  function SetPart(update: map<Field, Option<Value>>): map<Field, Value> {
    map k | k in update && update[k].Some? :: update[k].value
  }

  /** The undefined entries of a partial update: what `$unset` receives. */
  function UnsetPart(update: map<Field, Option<Value>>): set<Field> {
    set k | k in update && update[k].None?
  }

  /**
   * What a split update does to a document: a defined value is written, an
   * undefined one removes the field, and fields the update does not name
   * keep their value.
   */
  lemma SplitUpdateEffect(d: Doc, update: map<Field, Option<Value>>, toSet: map<Field, Value>, toUnset: set<Field>)
    requires toSet.Keys !! toUnset && toSet.Keys + toUnset == update.Keys
    requires forall k | k in toSet :: update[k] == Some(toSet[k])
    requires forall k | k in toUnset :: update[k] == None
    ensures forall k | k in update && update[k].Some? ::
      k in ApplyUpdate(d, toSet, toUnset) && ApplyUpdate(d, toSet, toUnset)[k] == update[k].value
    ensures forall k | k in update && update[k].None? :: k !in ApplyUpdate(d, toSet, toUnset)
    ensures forall k | k !in update ::
      (k in ApplyUpdate(d, toSet, toUnset) <==> k in d) && (k in d ==> ApplyUpdate(d, toSet, toUnset)[k] == d[k])
  {
    var r := ApplyUpdate(d, toSet, toUnset);
    forall k | k in update && update[k].Some?
      ensures k in r && r[k] == update[k].value
    {
      assert k !in toUnset;
    }
  }
}
