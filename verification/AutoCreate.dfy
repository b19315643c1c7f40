/**
 Creation of tags in the OPC-DA client: the retry loop of AutoCreateTag
 (src/OPC-DA-Client/TagsCreation.cs:490-527) and the loop that feeds it
 (processValueResults, src/OPC-DA-Client/AsduReceiveHandler.cs:261-342).
 An insert fails only on the unique index of `_id` or of `tag`.
 */
module AutoCreate {
  import opened Options

  datatype Tag = Tag(tag: string, connNumber: int, address: string)

  type Collection = map<int, Tag>

  predicate HasTag(docs: Collection, tag: string) {
    exists k :: k in docs && docs[k].tag == tag
  }

  predicate HasTagOf(docs: Collection, tag: string, conn: int) {
    exists k :: k in docs && docs[k].tag == tag && docs[k].connNumber == conn
  }

  predicate UniqueTags(docs: Collection) {
    forall j, k :: j in docs && k in docs && docs[j].tag == docs[k].tag ==> j == k
  }

  predicate CanInsert(docs: Collection, id: int, t: Tag) {
    id !in docs && !HasTag(docs, t.tag)
  }

  /** The tag is taken by a document of another connection. */
  predicate TakenElsewhere(docs: Collection, t: Tag) {
    HasTag(docs, t.tag) && !HasTagOf(docs, t.tag, t.connNumber)
  }

  /** The update tried after a failed insert: the document with this tag and connection gets the address. */
  function Readdressed(docs: Collection, t: Tag): Collection {
    map k | k in docs :: if docs[k].tag == t.tag && docs[k].connNumber == t.connNumber then t else docs[k]
  }

  /** The first key not below `id` that is free. */
  ghost predicate LeastFree(docs: Collection, start: int, id: int) {
    start <= id && id !in docs && forall k :: start <= k < id ==> k in docs
  }

  /** What a successful call leaves behind. */
  ghost predicate Created(before: Collection, start: int, t: Tag, after: Collection) {
    if HasTagOf(before, t.tag, t.connNumber) then after == Readdressed(before, t)
    else exists id :: LeastFree(before, start, id) && after == before[id := t]
  }

  /** One pass of the loop: the new collection, or nothing when the next key must be tried. */
  function Attempt(docs: Collection, id: int, t: Tag): Option<Collection> {
    if CanInsert(docs, id, t) then Some(docs[id := t])
    else if HasTagOf(docs, t.tag, t.connNumber) then Some(Readdressed(docs, t))
    else None
  }

  /** The result of at most `n` passes. */
  function Attempts(docs: Collection, id: int, t: Tag, n: nat): Option<Collection>
    decreases n
  {
    if n == 0 then None
    else
      var first := Attempt(docs, id, t);
      if first.Some? then first else Attempts(docs, id + 1, t, n - 1)
  }

  /** Stored keys not below `id`: the measure of the loop. */
  function KeysFrom(docs: Collection, id: int): set<int> {
    set k | k in docs && k >= id
  }

  lemma {:induction false} KeysFromShrinks(docs: Collection, id: int)
    requires id in docs
    ensures |KeysFrom(docs, id + 1)| == |KeysFrom(docs, id)| - 1
  {
    assert KeysFrom(docs, id) == KeysFrom(docs, id + 1) + {id};
  }

  /**
   The loop ends exactly when the tag is not taken by another connection; the number of stored keys bounds the
   passes.
   */
  lemma {:induction false} LoopEndsIff(docs: Collection, id: int, t: Tag)
    ensures (exists n :: Attempts(docs, id, t, n).Some?) <==> !TakenElsewhere(docs, t)
    ensures !TakenElsewhere(docs, t) ==> Attempts(docs, id, t, |KeysFrom(docs, id)| + 1).Some?
    decreases |KeysFrom(docs, id)|
  {
    if TakenElsewhere(docs, t) {
      forall n
        ensures Attempts(docs, id, t, n).None?
      {
        NeverEnds(docs, id, t, n);
      }
    } else {
      if Attempt(docs, id, t).None? {
        KeysFromShrinks(docs, id);
        LoopEndsIff(docs, id + 1, t);
      }
      assert Attempts(docs, id, t, |KeysFrom(docs, id)| + 1).Some?;
    }
  }

  lemma {:induction false} NeverEnds(docs: Collection, id: int, t: Tag, n: nat)
    requires TakenElsewhere(docs, t)
    ensures Attempts(docs, id, t, n).None?
    decreases n
  {
    if n > 0 {
      NeverEnds(docs, id + 1, t, n - 1);
    }
  }

  /**
   However many passes it takes, the result is the document at the least free key, or the new address of the
   existing tag.
   */
  lemma {:induction false} AttemptsCreate(docs: Collection, id: int, t: Tag, n: nat)
    requires Attempts(docs, id, t, n).Some?
    ensures Created(docs, id, t, Attempts(docs, id, t, n).value)
    decreases n
  {
    if CanInsert(docs, id, t) {
      assert LeastFree(docs, id, id);
    } else if Attempt(docs, id, t).None? {
      if TakenElsewhere(docs, t) {
        NeverEnds(docs, id, t, n);
      }
      AttemptsCreate(docs, id + 1, t, n - 1);
      var next :| LeastFree(docs, id + 1, next) && Attempts(docs, id + 1, t, n - 1).value == docs[next := t];
      assert LeastFree(docs, id, next);
    }
  }

  // ---------------------------------------------------------------- the program

  class RtCollection {
    var docs: Collection

    constructor (docs: Collection)
      ensures this.docs == docs
    {
      this.docs := docs;
    }

    method InsertOne(id: int, t: Tag) returns (ok: bool)
      modifies this
      ensures ok == CanInsert(old(docs), id, t)
      ensures docs == if ok then old(docs)[id := t] else old(docs)
    {
      ok := CanInsert(docs, id, t);
      if ok {
        docs := docs[id := t];
      }
    }

    method UpdateAddress(t: Tag) returns (matched: bool)
      modifies this
      ensures matched == HasTagOf(old(docs), t.tag, t.connNumber)
      ensures docs == Readdressed(old(docs), t)
    {
      matched := HasTagOf(docs, t.tag, t.connNumber);
      docs := Readdressed(docs, t);
    }
  }

  class OpcDaConnection {
    const name: string
    const number: int
    const autoCreateTags: bool
    var lastNewKeyCreated: int
    var insertedTags: set<string>
    var insertedAddresses: set<string>

    constructor (name: string, number: int, autoCreateTags: bool, lastNewKeyCreated: int)
      ensures this.name == name && this.number == number && this.autoCreateTags == autoCreateTags
      ensures this.lastNewKeyCreated == lastNewKeyCreated && insertedTags == {} && insertedAddresses == {}
    {
      this.name, this.number, this.autoCreateTags := name, number, autoCreateTags;
      this.lastNewKeyCreated := lastNewKeyCreated;
      insertedTags, insertedAddresses := {}, {};
    }

    /** The first `passes` rounds of a loop that the source repeats until it ends. */
    method AutoCreateTag(start: int, t: Tag, coll: RtCollection, passes: nat) returns (ended: bool)
      modifies this`insertedTags, this`insertedAddresses, coll
      ensures var r := Attempts(old(coll.docs), start, t, passes);
              ended == r.Some? && coll.docs == if ended then r.value else old(coll.docs)
      ensures insertedTags == old(insertedTags) + if ended then {t.tag} else {}
      ensures insertedAddresses == old(insertedAddresses) + if ended then {t.address} else {}
    {
      var id := start;
      ended := false;
      for n := 0 to passes
        invariant coll.docs == old(coll.docs) && !ended
        invariant insertedTags == old(insertedTags) && insertedAddresses == old(insertedAddresses)
        invariant Attempts(old(coll.docs), start, t, passes) == Attempts(coll.docs, id, t, passes - n)
      {
        var ok := coll.InsertOne(id, t);
        if ok {
          insertedTags := insertedTags + {t.tag};
          insertedAddresses := insertedAddresses + {t.address};
          return true;
        }
        var matched := coll.UpdateAddress(t);
        if matched {
          insertedTags := insertedTags + {t.tag};
          insertedAddresses := insertedAddresses + {t.address};
          return true;
        }
        UnmatchedUpdateChangesNothing(old(coll.docs), t);
        id := id + 1;
      }
    }

    /** Whether a value makes the client create a tag. */
    predicate IsNew(item: string, firstExecution: bool, known: set<string>) {
      firstExecution && autoCreateTags && item !in known
    }

    /**
     Values read in one execution; items that could not be read are not in the list.  The result says whether
     every creation ended within `passes` rounds; the client hangs at the first one that does not.
     */
    method ProcessValueResults(items: seq<string>, firstExecution: bool, coll: RtCollection,
                               passes: nat) returns (ended: bool)
      requires UniqueTags(coll.docs)
      modifies this`lastNewKeyCreated, this`insertedTags, this`insertedAddresses, coll
      ensures Grown(old(coll.docs), coll.docs, number, old(lastNewKeyCreated))
              && lastNewKeyCreated >= old(lastNewKeyCreated)
      ensures ended ==> Processed(old(coll.docs), old(lastNewKeyCreated), old(insertedAddresses), coll.docs, items,
                                  firstExecution)
      ensures ended && firstExecution && autoCreateTags
              ==> forall i :: i in items && i !in old(insertedAddresses) ==>
                    exists k :: k in coll.docs && coll.docs[k] == Tag(name + "." + i, number, i)
      ensures passes > |old(coll.docs)| + |items|
              ==> (ended <==> NoneTaken(old(coll.docs), items, firstExecution, old(insertedAddresses)))
    {
      ghost var docs0, last0, known := coll.docs, lastNewKeyCreated, insertedAddresses;
      GrownReflexive(coll.docs, number, lastNewKeyCreated);
      for i := 0 to |items|
        invariant Processed(docs0, last0, known, coll.docs, items[..i], firstExecution)
      {
        assert items[..i + 1] == items[..i] + [items[i]];
        ended := ProcessItem(items[i], firstExecution, coll, passes, docs0, last0, known, items[..i]);
        if !ended {
          HungItem(docs0, items, i, firstExecution, known);
          return;
        }
      }
      assert items[..|items|] == items;
      ended := true;
    }

    lemma {:induction false} HungItem(docs: Collection, items: seq<string>, i: nat, firstExecution: bool,
                                      known: set<string>)
      requires i < |items| && IsNew(items[i], firstExecution, known)
      ensures TakenElsewhere(docs, TagFor(items[i])) ==> !NoneTaken(docs, items, firstExecution, known)
    {
      assert items[i] in items;
    }

    /** The state after some of the items. */
    ghost predicate Processed(docs0: Collection, last0: int, known: set<string>, docs: Collection,
                              items: seq<string>, firstExecution: bool)
      reads this
    {
      && Grown(docs0, docs, number, last0) && lastNewKeyCreated >= last0 && |docs| <= |docs0| + |items|
      && AllStored(docs, items, firstExecution, known) && NoneTaken(docs0, items, firstExecution, known)
      && insertedAddresses == known + NewItems(items, firstExecution)
      && (!(firstExecution && autoCreateTags) ==> docs == docs0)
    }

    method ProcessItem(item: string, firstExecution: bool, coll: RtCollection, passes: nat, ghost docs0: Collection,
                       ghost last0: int, ghost known: set<string>, ghost before: seq<string>)
      returns (ended: bool)
      requires Processed(docs0, last0, known, coll.docs, before, firstExecution)
      modifies this`lastNewKeyCreated, this`insertedTags, this`insertedAddresses, coll
      ensures ended ==> Processed(docs0, last0, known, coll.docs, before + [item], firstExecution)
      ensures !ended ==> && Grown(docs0, coll.docs, number, last0) && lastNewKeyCreated >= last0
                         && IsNew(item, firstExecution, known)
                         && (passes <= |docs0| + |before| || TakenElsewhere(docs0, TagFor(item)))
    {
      ended := true;
      if firstExecution && autoCreateTags && item !in insertedAddresses {
        ended := CreateFor(item, coll, passes, docs0, last0, before, known);
      }
    }

    method CreateFor(item: string, coll: RtCollection, passes: nat, ghost docs0: Collection, ghost last0: int,
                     ghost before: seq<string>, ghost known: set<string>)
      returns (ended: bool)
      requires Grown(docs0, coll.docs, number, last0) && lastNewKeyCreated >= last0
      requires AllStored(coll.docs, before, true, known)
      modifies this`lastNewKeyCreated, this`insertedTags, this`insertedAddresses, coll
      ensures Grown(docs0, coll.docs, number, last0) && lastNewKeyCreated == old(lastNewKeyCreated) + 1
      ensures |coll.docs| <= |old(coll.docs)| + 1
      ensures insertedAddresses == old(insertedAddresses) + if ended then {item} else {}
      ensures ended ==> AllStored(coll.docs, before + [item], true, known)
      ensures ended ==> !TakenElsewhere(docs0, TagFor(item))
      ensures passes > |old(coll.docs)| && !TakenElsewhere(docs0, TagFor(item)) ==> ended
    {
      ghost var docs := coll.docs;
      var id := lastNewKeyCreated + 1;
      lastNewKeyCreated := id;
      ended := AutoCreateTag(id, TagFor(item), coll, passes);
      TakenStaysIff(docs0, docs, number, last0, TagFor(item));
      LoopEndsWithin(docs, id, TagFor(item), passes);
      if ended {
        AttemptsCreate(docs, id, TagFor(item), passes);
        CreatedGrows(docs, id, TagFor(item), coll.docs);
        CreatedOneAtMost(docs, id, TagFor(item), coll.docs);
        GrownTransitive(docs0, docs, coll.docs, number, last0, id - 1);
        ItemsStayStored(docs, id, item, coll.docs, before, true, known);
      }
    }

    /** The items among `items` for which a tag is created or found. */
    function NewItems(items: seq<string>, firstExecution: bool): set<string> {
      if firstExecution && autoCreateTags then set i | i in items else {}
    }

    predicate AllStored(docs: Collection, items: seq<string>, firstExecution: bool, known: set<string>) {
      forall i :: i in items && IsNew(i, firstExecution, known) ==> Stored(docs, TagFor(i))
    }

    /** No item that needs a tag finds it taken by another connection. */
    predicate NoneTaken(docs: Collection, items: seq<string>, firstExecution: bool, known: set<string>) {
      forall i :: i in items && IsNew(i, firstExecution, known) ==> !TakenElsewhere(docs, TagFor(i))
    }

    lemma {:induction false} ItemsStayStored(before: Collection, id: int, item: string, after: Collection,
                                             items: seq<string>, firstExecution: bool, known: set<string>)
      requires UniqueTags(before) && !TakenElsewhere(before, TagFor(item)) && Created(before, id, TagFor(item), after)
      requires Stored(after, TagFor(item)) && AllStored(before, items, firstExecution, known)
      ensures AllStored(after, items + [item], firstExecution, known)
    {
      forall x | x in items && IsNew(x, firstExecution, known)
        ensures Stored(after, TagFor(x))
      {
        if name + "." + item == name + "." + x {
          SuffixIsDetermined(name + ".", item, x);
        }
        CreatedKeepsStored(before, id, TagFor(item), after, TagFor(x));
      }
    }

    function TagFor(item: string): Tag {
      Tag(name + "." + item, number, item)
    }
  }

  // ---------------------------------------------------------------- what creation keeps

  predicate Stored(docs: Collection, t: Tag) {
    exists k :: k in docs && docs[k] == t
  }

  /**
   Nothing disappears: old documents keep key, tag and connection, and lose their address only to their own
   connection; new keys come after `last`.
   */
  predicate Grown(before: Collection, after: Collection, conn: int, last: int) {
    && UniqueTags(after)
    && (forall k :: k in before
          ==> k in after && after[k].tag == before[k].tag && after[k].connNumber == before[k].connNumber)
    && (forall k :: k in before && before[k].connNumber != conn ==> after[k] == before[k])
    && (forall k :: k in after && k !in before
          ==> k > last && after[k].connNumber == conn && !HasTag(before, after[k].tag))
  }

  lemma {:induction false} UnmatchedUpdateChangesNothing(docs: Collection, t: Tag)
    requires !HasTagOf(docs, t.tag, t.connNumber)
    ensures Readdressed(docs, t) == docs
  {
    assert forall k :: k in docs ==> !(docs[k].tag == t.tag && docs[k].connNumber == t.connNumber);
  }

  lemma {:induction false} GrownReflexive(docs: Collection, conn: int, last: int)
    requires UniqueTags(docs)
    ensures Grown(docs, docs, conn, last)
  {
  }

  /** Whether another connection has a tag does not change while this connection creates its own. */
  lemma {:induction false} TakenStaysIff(before: Collection, after: Collection, conn: int, last: int, t: Tag)
    requires Grown(before, after, conn, last) && t.connNumber == conn
    ensures TakenElsewhere(after, t) <==> TakenElsewhere(before, t)
  {
    if HasTag(before, t.tag) {
      var k :| k in before && before[k].tag == t.tag;
      assert after[k].tag == t.tag && after[k].connNumber == before[k].connNumber;
      assert forall j :: j in after && after[j].tag == t.tag ==> j == k;
      assert forall j :: j in before && before[j].tag == t.tag ==> after[j].tag == t.tag;
    } else {
      assert forall k :: k in before ==> before[k].tag != t.tag;
      assert forall k :: k in after && after[k].tag == t.tag ==> k !in before;
    }
  }

  /** More passes change nothing once the loop has ended, and all stored keys are enough. */
  lemma {:induction false} LoopEndsWithin(docs: Collection, id: int, t: Tag, passes: nat)
    ensures TakenElsewhere(docs, t) ==> Attempts(docs, id, t, passes).None?
    ensures !TakenElsewhere(docs, t) && passes > |docs| ==> Attempts(docs, id, t, passes).Some?
  {
    LoopEndsIff(docs, id, t);
    if TakenElsewhere(docs, t) {
      NeverEnds(docs, id, t, passes);
    } else {
      KeysAreFewer(docs, id);
      MorePasses(docs, id, t, |KeysFrom(docs, id)| + 1, passes);
    }
  }

  lemma {:induction false} KeysAreFewer(docs: Collection, id: int)
    ensures |KeysFrom(docs, id)| <= |docs|
  {
    var rest := docs.Keys - KeysFrom(docs, id);
    assert docs.Keys == KeysFrom(docs, id) + rest;
  }

  lemma {:induction false} MorePasses(docs: Collection, id: int, t: Tag, m: nat, n: nat)
    requires Attempts(docs, id, t, m).Some?
    ensures n >= m ==> Attempts(docs, id, t, n).Some?
    decreases m
  {
    if n >= m && Attempt(docs, id, t).None? {
      MorePasses(docs, id + 1, t, m - 1, n - 1);
    }
  }

  lemma {:induction false} CreatedOneAtMost(before: Collection, start: int, t: Tag, after: Collection)
    requires Created(before, start, t, after)
    ensures |after| <= |before| + 1
  {
    if HasTagOf(before, t.tag, t.connNumber) {
      assert after.Keys == before.Keys;
    } else {
      var id :| LeastFree(before, start, id) && after == before[id := t];
      assert after.Keys == before.Keys + {id};
    }
  }

  lemma {:induction false} CreatedGrows(before: Collection, start: int, t: Tag, after: Collection)
    requires UniqueTags(before) && !TakenElsewhere(before, t) && Created(before, start, t, after)
    ensures Grown(before, after, t.connNumber, start - 1) && Stored(after, t)
  {
    if HasTagOf(before, t.tag, t.connNumber) {
      var k :| k in before && before[k].tag == t.tag && before[k].connNumber == t.connNumber;
      assert after[k] == t;
    } else {
      var id :| LeastFree(before, start, id) && after == before[id := t];
      assert after[id] == t;
      assert forall k :: k in before ==> before[k].tag != t.tag;
    }
  }

  lemma {:induction false} GrownTransitive(a: Collection, b: Collection, c: Collection, conn: int, last: int,
                                           later: int)
    requires last <= later && Grown(a, b, conn, last) && Grown(b, c, conn, later)
    ensures Grown(a, c, conn, last)
  {
    forall k | k in c && k !in a
      ensures k > last && c[k].connNumber == conn && !HasTag(a, c[k].tag)
    {
      if k in b {
        assert c[k].tag == b[k].tag;
      } else {
        assert !HasTag(b, c[k].tag);
        assert forall j :: j in a ==> b[j].tag == a[j].tag;
      }
    }
  }

  lemma {:induction false} SuffixIsDetermined(prefix: string, a: string, b: string)
    requires prefix + a == prefix + b
    ensures a == b
  {
    assert a == (prefix + a)[|prefix|..] && b == (prefix + b)[|prefix|..];
  }

  lemma {:induction false} CreatedKeepsStored(before: Collection, start: int, t: Tag, after: Collection, other: Tag)
    requires UniqueTags(before) && !TakenElsewhere(before, t) && Created(before, start, t, after)
    requires Stored(before, other) && (other.tag == t.tag && other.connNumber == t.connNumber ==> other == t)
    ensures Stored(after, other)
  {
    var k :| k in before && before[k] == other;
    if HasTagOf(before, t.tag, t.connNumber) {
      assert after[k] == other;
    } else {
      var id :| LeastFree(before, start, id) && after == before[id := t];
      assert after[k] == other;
    }
  }

  // ---------------------------------------------------------------- field by field

  /** A tag is taken elsewhere exactly when some document has it and belongs to another connection. */
  lemma {:induction false} TakenElsewhereIff(docs: Collection, t: Tag)
    requires UniqueTags(docs)
    ensures TakenElsewhere(docs, t)
            <==> exists k :: k in docs && docs[k].tag == t.tag && docs[k].connNumber != t.connNumber
  {
  }

  /** A new address goes to the document with the tag and the connection, and to no other; nothing else changes. */
  lemma {:induction false} ReaddressedMeans(docs: Collection, t: Tag)
    ensures var after := Readdressed(docs, t);
            && after.Keys == docs.Keys
            && forall k :: k in docs ==>
                 && after[k].tag == docs[k].tag && after[k].connNumber == docs[k].connNumber
                 && after[k].address == (if docs[k].tag == t.tag && docs[k].connNumber == t.connNumber then t.address
                                         else docs[k].address)
  {
  }
}
