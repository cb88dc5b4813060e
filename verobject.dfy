/**
  A version controlled object store over a Redis-like engine. Every object of a
  table is a Redis list of serialized revisions, newest first, stored under the key
  "<table>.<id>"; the ids that currently exist are the members of one Redis set
  stored under "<table>.__keys__". Writing never overwrites: it pushes a new
  revision on the front of the list.
 */
module VerObject {
  import opened Wrappers
  import opened Serial

  /** The id whose key would be the live-id set's own key. */
  const KeysId := "__keys__"

  /** The key of an object's revision list: "%s.%s" % (table, sid). */
  function KeyOf(table: string, sid: string): (key: string)
    ensures |key| == |table| + 1 + |sid|
    ensures key[..|table|] == table && key[|table|] == '.'
  {
    table + "." + sid
  }

  /** The key of the set of live ids of a table: the key the reserved id would get. */
  function KeyListKey(table: string): (key: string)
    ensures key == KeyOf(table, KeysId)
  {
    table + ".__keys__"
  }

  /** The object key collides with the live-set key exactly for the id "__keys__". */
  lemma KeyReserved(table: string, sid: string)
    ensures KeyOf(table, sid) == KeyListKey(table) <==> sid == KeysId
  {
    var n := |table| + 1;
    assert KeyOf(table, sid)[n..] == sid;
    assert KeyListKey(table)[n..] == KeysId;
  }

  /** Within one table, distinct ids have distinct keys. */
  lemma KeyInjective(table: string, a: string, b: string)
    ensures KeyOf(table, a) == KeyOf(table, b) <==> a == b
  {
    var n := |table| + 1;
    assert KeyOf(table, a)[n..] == a;
    assert KeyOf(table, b)[n..] == b;
  }

  /**
    Redis LINDEX: a negative index counts from the end (-1 is the last element);
    an index out of range answers nothing.
   */
  function LIndex<T>(xs: seq<T>, n: int): (r: Option<T>) {
    var i := if n < 0 then |xs| + n else n;
    if 0 <= i < |xs| then Some(xs[i]) else None
  }

  /** LINDEX against the list as seen from its front, in both directions of the range. */
  lemma LIndexRange<T>(xs: seq<T>, n: int)
    ensures LIndex(xs, n).Some? <==> -|xs| <= n < |xs|
    ensures 0 <= n < |xs| ==> LIndex(xs, n) == Some(xs[n])
    ensures -|xs| <= n < 0 ==> LIndex(xs, n) == LIndex(xs, |xs| + n)
  {
  }

  /**
    Prepending `extra` shifts every old element up by |extra| positions: reading at
    n + |extra| after the prepend finds what was at n before it.
   */
  lemma LIndexPrepend<T>(extra: seq<T>, xs: seq<T>, n: nat)
    ensures LIndex(extra + xs, |extra| + n) == LIndex(xs, n)
  {
  }

  /**
    Counted from the oldest end, an index is immune to prepends: reading at
    k - |xs| finds element k of `xs` whatever was prepended in front of it.
   */
  lemma LIndexFromOldest<T>(extra: seq<T>, xs: seq<T>, k: nat)
    requires k < |xs|
    ensures LIndex(extra + xs, k - |xs|) == Some(xs[k])
  {
  }

  /**
    A read at the cursor `|front| + k`, meant for element k of `xs`, after `racer`
    was prepended unseen: it finds element k - |racer| of `xs`, one already read,
    or, when the racer is longer than k, one of the prepended revisions.
   */
  lemma LIndexStale<T>(racer: seq<T>, front: seq<T>, xs: seq<T>, k: nat)
    requires k < |xs|
    ensures |racer| <= k ==> LIndex(racer + front + xs, |front| + k) == Some(xs[k - |racer|])
    ensures k < |racer| ==> LIndex(racer + front + xs, |front| + k) == Some((racer + front)[|front| + k])
  {
  }

  datatype Error =
    | KeyError(sid: string)   // no current revision for the id
    | ValueError              // write or delete under the reserved id
    | IndexError(index: int)  // revision index out of range
    | WrongType               // list command against the live-id set's key

  datatype Result<T> = Ok(value: T) | Err(error: Error)

  datatype Outcome = Pass | Fail(error: Error)

  /** The list stored under `key` (an absent key reads as the empty list, as LRANGE answers). */
  function ListIn(lists: map<string, seq<Bytes>>, key: string): (xs: seq<Bytes>) {
    if key in lists then lists[key] else []
  }

  /**
    What other writers prepend, step after step: Grown(env, k) is the front part the
    list has gained after the environment acted k times (latest batch first).
   */
  function Grown(env: nat -> seq<Bytes>, k: nat): (front: seq<Bytes>) {
    if k == 0 then [] else env(k) + Grown(env, k - 1)
  }

  /**
    What other writers prepend to a list during one pass of an iterator's loop:
    one batch before the pass reads the length, one right after it.
   */
  datatype Writes = Writes(beforeLen: seq<Bytes>, afterLen: seq<Bytes>)

  /** `xs` ends with `tail`: the list still holds `tail` as its oldest part. */
  predicate EndsWith(xs: seq<Bytes>, tail: seq<Bytes>) {
    |tail| <= |xs| && xs[|xs| - |tail|..] == tail
  }

  /** Prepending keeps the oldest part of a list. */
  lemma EndsWithPrepend(extra: seq<Bytes>, xs: seq<Bytes>, tail: seq<Bytes>)
    requires EndsWith(xs, tail)
    ensures EndsWith(extra + xs, tail)
  {
    assert (extra + xs)[|extra + xs| - |tail|..] == xs[|xs| - |tail|..];
  }

  /** Dict-like, version controlled, serialized object store over one table. */
  class Store<V> {
    const table: string
    const keylistkey: string := KeyListKey(table)
    const serializer: Serializer<V>

    // the engine's state as far as this table uses it
    var lists: map<string, seq<Bytes>>  // revision lists, by key, newest first
    var live: set<string>               // the set stored at keylistkey

    ghost predicate Valid()
      reads this
    {
      && keylistkey !in lists        // the live-set key holds a set, never a list
      && KeysId !in live             // every writer of this set refuses the reserved id
    }

    /** The list stored under `key` (an absent key reads as the empty list). */
    function ListAt(key: string): (xs: seq<Bytes>)
      reads this
    {
      ListIn(lists, key)
    }

    /** All revisions of one object, newest first. */
    function RevisionsOf(sid: string): (revs: seq<Bytes>)
      reads this
    {
      ListAt(KeyOf(table, sid))
    }

    /** A list command against `key` hits the live-id set, which exists while non-empty. */
    predicate HoldsSet(key: string)
      reads this
    {
      key == keylistkey && live != {}
    }

    /** Binds a table to an engine that already holds `lists` and the live set `live`. */
    constructor (table: string, serializer: Serializer<V>, lists: map<string, seq<Bytes>>, live: set<string>)
      requires KeyListKey(table) !in lists
      requires KeysId !in live
      ensures Valid()
      ensures this.table == table && this.serializer == serializer
      ensures this.lists == lists && this.live == live
    {
      this.table := table;
      this.serializer := serializer;
      this.lists := lists;
      this.live := live;
    }

    /** Redis LINDEX on this table's keys. */
    method LIndexOf(key: string, n: int) returns (r: Result<Option<Bytes>>)
      requires Valid()
      ensures HoldsSet(key) <==> r == Err(WrongType)
      ensures !HoldsSet(key) ==> r == Ok(LIndex(ListAt(key), n))
    {
      if key == keylistkey && live != {} {
        return Err(WrongType);
      }
      r := Ok(LIndex(ListAt(key), n));
    }

    /** Redis LLEN on this table's keys. */
    method LLenOf(key: string) returns (r: Result<nat>)
      requires Valid()
      ensures HoldsSet(key) <==> r == Err(WrongType)
      ensures !HoldsSet(key) ==> r == Ok(|ListAt(key)|)
    {
      if key == keylistkey && live != {} {
        return Err(WrongType);
      }
      r := Ok(|ListAt(key)|);
    }

    /** store[sid]: the current (newest) revision, decoded. */
    method Get(sid: string) returns (r: Result<V>)
      requires Valid()
      ensures sid == KeysId && live != {} ==> r == Err(WrongType)
      ensures !(sid == KeysId && live != {}) ==>
                (r == Err(KeyError(sid)) <==> RevisionsOf(sid) == [])
      ensures !(sid == KeysId && live != {}) && RevisionsOf(sid) != [] ==>
                r == Ok(serializer.loads(RevisionsOf(sid)[0]))
    {
      var key := KeyOf(table, sid);
      KeyReserved(table, sid);
      var res := LIndexOf(key, 0);
      if res.Err? {
        return Err(res.error);
      }
      if res.value.None? {
        return Err(KeyError(sid));
      }
      r := Ok(serializer.loads(res.value.value));
    }

    /** store[sid] = v: push a new revision, then add the id to the live set. */
    method Put(sid: string, v: V) returns (r: Outcome)
      requires Valid()
      modifies this
      ensures Valid()
      ensures r.Fail? <==> sid == KeysId
      ensures r.Fail? ==> r.error == ValueError && lists == old(lists) && live == old(live)
      ensures r.Pass? ==> lists == old(lists)[KeyOf(table, sid) := [serializer.dumps(v)] + old(RevisionsOf(sid))]
      ensures r.Pass? ==> live == old(live) + {sid}
      ensures r.Pass? ==> RevisionsOf(sid) == [serializer.dumps(v)] + old(RevisionsOf(sid))
      ensures forall other :: other != sid ==> RevisionsOf(other) == old(RevisionsOf(other))
    {
      var key := KeyOf(table, sid);
      KeyReserved(table, sid);
      if key == keylistkey {
        return Fail(ValueError);
      }
      forall other | other != sid
        ensures KeyOf(table, other) != key
      {
        KeyInjective(table, other, sid);
      }
      lists := lists[key := [serializer.dumps(v)] + ListAt(key)];  // lpush
      live := live + {sid};                                         // sadd
      r := Pass;
    }

    /** del store[sid]: drop the whole revision list, then remove the id from the live set. */
    method Remove(sid: string) returns (r: Outcome)
      requires Valid()
      modifies this
      ensures Valid()
      ensures r.Fail? <==> sid == KeysId
      ensures r.Fail? ==> r.error == ValueError && lists == old(lists) && live == old(live)
      ensures r.Pass? ==> lists == old(lists) - {KeyOf(table, sid)}
      ensures r.Pass? ==> live == old(live) - {sid}
      ensures r.Pass? ==> RevisionsOf(sid) == [] && sid !in live
      ensures forall other :: other != sid ==> RevisionsOf(other) == old(RevisionsOf(other))
    {
      var key := KeyOf(table, sid);
      KeyReserved(table, sid);
      if key == keylistkey {
        return Fail(ValueError);
      }
      forall other | other != sid
        ensures KeyOf(table, other) != key
      {
        KeyInjective(table, other, sid);
      }
      lists := lists - {key};  // delete
      live := live - {sid};    // srem
      r := Pass;
    }

    /** len(store): the size of the live-id set. */
    method Len() returns (n: nat)
      ensures n == |live|
    {
      n := |live|;
    }

    /** iter(store): a snapshot of the live ids, in no particular order. */
    method Ids() returns (ids: set<string>)
      ensures ids == live
    {
      ids := live;
    }

    /** store.get(sid, default): like store[sid], but a missing object gives `default`. */
    method GetOr(sid: string, default: V) returns (r: Result<V>)
      requires Valid()
      ensures sid == KeysId && live != {} ==> r == Err(WrongType)
      ensures !(sid == KeysId && live != {}) && RevisionsOf(sid) == [] ==> r == Ok(default)
      ensures !(sid == KeysId && live != {}) && RevisionsOf(sid) != [] ==>
                r == Ok(serializer.loads(RevisionsOf(sid)[0]))
    {
      r := Get(sid);
      if r.Err? && r.error.KeyError? {
        r := Ok(default);
      }
    }

    /** Deletes every live object, then the live-id set itself. */
    method Flush()
      requires Valid()
      modifies this
      ensures Valid()
      ensures live == {}
      ensures lists == old(lists) - (set sid | sid in old(live) :: KeyOf(table, sid))
    {
      var ids := Ids();
      ghost var done: set<string> := {};
      while ids != {}
        invariant Valid()
        invariant ids !! done && ids + done == old(live)
        invariant live == old(live) - done
        invariant lists == old(lists) - (set sid | sid in done :: KeyOf(table, sid))
        decreases ids
      {
        var sid :| sid in ids;
        var r := Remove(sid);
        assert r.Pass?;
        ids := ids - {sid};
        done := done + {sid};
      }
      live := {};  // delete keylistkey
    }

    /**
      Another writer's LPUSH of a batch onto an existing list: the batch lands in
      front, newest first. The iterator's environment is made of these.
     */
    method PushFront(key: string, extra: seq<Bytes>)
      requires Valid() && key in lists
      modifies this
      ensures Valid()
      ensures lists == old(lists)[key := extra + old(lists)[key]]
      ensures ListAt(key) == extra + old(ListAt(key))
      ensures live == old(live)
    {
      lists := lists[key := extra + lists[key]];
    }

    /** store.versions(sid): a view over the revisions of one object. */
    method VersionsOf(sid: string) returns (vs: Versions<V>)
      ensures fresh(vs)
      ensures vs.store == this && vs.key == KeyOf(table, sid)
    {
      vs := new Versions(this, sid);
    }
  }

  /**
    What the store promises for any table, id and value: a write is read back by
    store[sid] and store.get when the serializer round-trips, the revision it
    replaced stays readable one step back as versions(sid)[1], and after a delete
    the id is missing again. The reserved id is refused by both writers.
   */
  method ReadAfterWrite<V(!new)>(s: Store<V>, sid: string, v: V, default: V)
      returns (put: Outcome, got: Result<V>, gotOr: Result<V>, older: Result<V>,
               del: Outcome, gone: Result<V>, goneOr: Result<V>)
    requires s.Valid() && RoundTrips(s.serializer)
    modifies s
    ensures sid == KeysId <==> put == Fail(ValueError)
    ensures sid == KeysId <==> del == Fail(ValueError)
    ensures sid == KeysId ==> got.Err? && gone.Err? && older.Err?
    ensures sid != KeysId ==> got == Ok(v) && gotOr == Ok(v)
    ensures sid != KeysId && old(s.RevisionsOf(sid)) != [] ==>
              older == Ok(s.serializer.loads(old(s.RevisionsOf(sid))[0]))
    ensures sid != KeysId && old(s.RevisionsOf(sid)) == [] ==> older == Err(IndexError(1))
    ensures sid != KeysId ==> gone == Err(KeyError(sid)) && goneOr == Ok(default)
  {
    put := s.Put(sid, v);
    got := s.Get(sid);
    gotOr := s.GetOr(sid, default);
    var vs := s.VersionsOf(sid);
    older := vs.At(1);
    del := s.Remove(sid);
    gone := s.Get(sid);
    goneOr := s.GetOr(sid, default);
  }

  /** List-like access to the past revisions of one object, read live from the store. */
  class Versions<V> {
    const store: Store<V>
    const key: string

    constructor (store: Store<V>, sid: string)
      ensures this.store == store && key == KeyOf(store.table, sid)
    {
      this.store := store;
      this.key := KeyOf(store.table, sid);
    }

    /** The revisions as the store holds them now, newest first. */
    function Revisions(): (revs: seq<Bytes>)
      reads store
    {
      ListIn(store.lists, key)
    }

    /** len(versions): the current number of revisions. */
    method Len() returns (r: Result<nat>)
      requires store.Valid()
      ensures store.HoldsSet(key) <==> r == Err(WrongType)
      ensures !store.HoldsSet(key) ==> r == Ok(|Revisions()|)
    {
      r := store.LLenOf(key);
    }

    /** versions[n]: revision n, newest at 0, with negative n counting from the oldest. */
    method At(n: int) returns (r: Result<V>)
      requires store.Valid()
      ensures store.HoldsSet(key) <==> r == Err(WrongType)
      ensures !store.HoldsSet(key) ==>
                (r == Err(IndexError(n)) <==> !(-|Revisions()| <= n < |Revisions()|))
      ensures !store.HoldsSet(key) && 0 <= n < |Revisions()| ==>
                r == Ok(store.serializer.loads(Revisions()[n]))
      ensures !store.HoldsSet(key) && -|Revisions()| <= n < 0 ==>
                r == Ok(store.serializer.loads(Revisions()[|Revisions()| + n]))
    {
      var res := store.LIndexOf(key, n);
      LIndexRange(Revisions(), n);
      if res.Err? {
        return Err(res.error);
      }
      if res.value.None? {
        return Err(IndexError(n));
      }
      r := Ok(store.serializer.loads(res.value.value));
    }

    /**
      The state of an iteration at the head of its loop, with `orig` the list when
      iteration started (`lists0` all lists then, `live0` the live set): the list is
      now the batches prepended so far in front of `orig`; the cursor `n` sits just
      after those batches and the |ys| revisions already yielded; `sz` is the length
      last observed; `ys` is the decoded front part of `orig`.
     */
    ghost predicate Cursor(env: nat -> seq<Bytes>, orig: seq<Bytes>, lists0: map<string, seq<Bytes>>,
                           live0: set<string>, ys: seq<V>, n: nat, sz: nat)
      reads store
    {
      && store.Valid() && store.live == live0
      && ListIn(lists0, key) == orig
      && |ys| <= |orig| <= sz <= |Grown(env, |ys|)| + |orig|
      && n == |ys| + (sz - |orig|)
      && store.lists == (if |ys| == 0 then lists0 else lists0[key := Grown(env, |ys|) + orig])
      && ys == DecodeAll(store.serializer, orig[..|ys|])
    }

    /**
      One `yield self[n]` when the length has not changed since the last look,
      followed by the consumer's turn: while the generator is suspended, other
      writers prepend the next batch of `env` to the list.
     */
    method YieldStep(env: nat -> seq<Bytes>, ghost orig: seq<Bytes>, ghost lists0: map<string, seq<Bytes>>,
                     ghost live0: set<string>, ys: seq<V>, n: nat, sz: nat) returns (ys': seq<V>, n': nat)
      requires Cursor(env, orig, lists0, live0, ys, n, sz) && n < sz && sz == |Revisions()|
      modifies store
      ensures Cursor(env, orig, lists0, live0, ys', n', sz) && |ys'| == |ys| + 1
    {
      ghost var grown := Grown(env, |ys|);
      assert Revisions() == grown + orig && n == |grown| + |ys|;
      LIndexPrepend(grown, orig, |ys|);
      assert !store.HoldsSet(key);
      var item := At(n);
      DecodeAllSnoc(store.serializer, orig, |ys|);
      ys' := ys + [item.value];
      n' := n + 1;
      store.PushFront(key, env(|ys'|));
      assert Grown(env, |ys'|) + orig == env(|ys'|) + (grown + orig);
    }

    /**
      iter(versions): yields the revisions present when iteration starts, newest to
      oldest. After each yield the environment (the consumer, or any other writer)
      may prepend env(k) to the list; before each read the iterator re-reads the
      length and moves its cursor past whatever was prepended.
     */
    method Iterate(env: nat -> seq<Bytes>) returns (r: Result<seq<V>>)
      requires store.Valid()
      modifies store
      ensures store.Valid()
      ensures store.live == old(store.live)
      ensures old(store.HoldsSet(key)) ==> r == Err(WrongType) && store.lists == old(store.lists)
      ensures !old(store.HoldsSet(key)) ==> r == Ok(DecodeAll(store.serializer, old(Revisions())))
      ensures old(Revisions()) == [] ==> store.lists == old(store.lists)
      ensures old(Revisions()) != [] ==>
                store.lists == old(store.lists)[key := Grown(env, |old(Revisions())|) + old(Revisions())]
    {
      var len0 := Len();
      if len0.Err? {
        return Err(len0.error);
      }
      ghost var orig := Revisions();
      ghost var lists0 := store.lists;
      var n: nat := 0;
      var sz: nat := len0.value;
      var ys: seq<V> := [];
      while n < sz
        invariant Cursor(env, orig, lists0, old(store.live), ys, n, sz)
        decreases |orig| - |ys|, |Grown(env, |ys|)| + |orig| - sz
      {
        var len2 := Len();
        var sz2 := len2.value;
        if sz2 > sz {
          // the list grew since the last look: skip the new front part
          n := n + (sz2 - sz);
          sz := sz2;
        } else {
          ys, n := YieldStep(env, orig, lists0, old(store.live), ys, n, sz);
        }
      }
      assert orig[..|ys|] == orig;
      r := Ok(ys);
    }

    /**
      One pass of the loop of iter(versions) as written, with other writers
      prepending `w.beforeLen` before it reads the length and `w.afterLen` right
      after: when the length has not grown, the revision is read at the cursor `n`,
      counted from the newest end, after `w.afterLen` has shifted the list.
     */
    method StepAsWritten(n: nat, sz: nat, w: Writes) returns (item: Option<V>, n': nat, sz': nat)
      requires store.Valid() && key in store.lists && n < sz <= |Revisions()|
      modifies store
      ensures store.Valid() && store.live == old(store.live)
      ensures store.lists == old(store.lists)[key := w.afterLen + w.beforeLen + old(Revisions())]
      ensures item.None? <==> sz < |w.beforeLen| + |old(Revisions())|
      ensures item.None? ==> sz' == |w.beforeLen| + |old(Revisions())| && n' == n + (sz' - sz)
      ensures item.Some? ==> n' == n + 1 && sz' == sz && n < |Revisions()|
      ensures item.Some? ==> item.value == store.serializer.loads(Revisions()[n])
    {
      store.PushFront(key, w.beforeLen);
      var len2 := Len();
      var sz2 := len2.value;
      store.PushFront(key, w.afterLen);
      assert Revisions() == w.afterLen + w.beforeLen + old(Revisions());
      if sz2 > sz {
        return None, n + (sz2 - sz), sz2;
      }
      var res := At(n);
      item, n', sz' := Some(res.value), n + 1, sz;
    }

    /**
      The state of an iteration that reads from the oldest end, at the head of its
      loop: the list still ends with `orig`, the list when iteration started
      (`lists0` all lists then, `live0` the live set); nothing else has changed;
      `sz` is the length last observed, the cursor `n` is |ys| revisions past the
      part prepended by then, and `ys` is the decoded newest part of `orig`.
     */
    ghost predicate Behind(orig: seq<Bytes>, lists0: map<string, seq<Bytes>>, live0: set<string>,
                           ys: seq<V>, n: nat, sz: nat)
      reads store
    {
      && store.Valid() && store.live == live0
      && ListIn(lists0, key) == orig
      && |ys| <= |orig| <= sz <= |Revisions()|
      && n == |ys| + (sz - |orig|)
      && store.lists == (if orig == [] then lists0 else lists0[key := Revisions()])
      && EndsWith(Revisions(), orig)
      && ys == DecodeAll(store.serializer, orig[..|ys|])
    }

    /**
      One pass of the loop with the read counted from the oldest end,
      `self[n - sz]`: whatever the other writers prepend before or after the
      length is read, a revision read is the next one of `orig`.
     */
    method StepFromOldest(ghost orig: seq<Bytes>, ghost lists0: map<string, seq<Bytes>>, ghost live0: set<string>,
                          ys: seq<V>, n: nat, sz: nat, w: Writes) returns (ys': seq<V>, n': nat, sz': nat)
      requires Behind(orig, lists0, live0, ys, n, sz) && n < sz
      modifies store
      ensures Behind(orig, lists0, live0, ys', n', sz')
      ensures Revisions() == w.afterLen + w.beforeLen + old(Revisions())
      ensures |ys'| == |ys| + 1 || (ys' == ys && sz < sz' && (w.afterLen == [] ==> sz' == |Revisions()|))
    {
      EndsWithPrepend(w.beforeLen, Revisions(), orig);
      store.PushFront(key, w.beforeLen);
      var len2 := Len();
      var sz2 := len2.value;
      EndsWithPrepend(w.afterLen, Revisions(), orig);
      store.PushFront(key, w.afterLen);
      if sz2 > sz {
        return ys, n + (sz2 - sz), sz2;
      }
      ghost var front := Revisions()[..|Revisions()| - |orig|];
      assert Revisions() == front + orig;
      LIndexFromOldest(front, orig, |ys|);
      var item := At(n - sz);
      DecodeAllSnoc(store.serializer, orig, |ys|);
      ys', n', sz' := ys + [item.value], n + 1, sz;
    }

    /**
      iter(versions) reading each revision as `self[n - sz]`, counted from the
      oldest end, while other writers prepend batches at every point the reader
      can be interleaved with (`writes`, one pair per pass; none once they run
      out): it yields exactly the revisions present when iteration starts, newest
      to oldest, and the list keeps them as its oldest part.
     */
    method IterateFromOldest(writes: seq<Writes>) returns (r: Result<seq<V>>)
      requires store.Valid()
      modifies store
      ensures store.Valid()
      ensures store.live == old(store.live)
      ensures old(store.HoldsSet(key)) ==> r == Err(WrongType) && store.lists == old(store.lists)
      ensures !old(store.HoldsSet(key)) ==> r == Ok(DecodeAll(store.serializer, old(Revisions())))
      ensures old(Revisions()) == [] ==> store.lists == old(store.lists)
      ensures old(Revisions()) != [] ==> store.lists == old(store.lists)[key := Revisions()]
      ensures EndsWith(Revisions(), old(Revisions()))
    {
      var len0 := Len();
      if len0.Err? {
        return Err(len0.error);
      }
      ghost var orig := Revisions();
      ghost var lists0 := store.lists;
      BehindAtStart();
      var rest := writes;
      var n: nat := 0;
      var sz: nat := len0.value;
      var ys: seq<V> := [];
      while n < sz
        invariant Behind(orig, lists0, old(store.live), ys, n, sz)
        decreases |rest|, |orig| - |ys|, |Revisions()| - sz
      {
        var w := if rest == [] then Writes([], []) else rest[0];
        rest := if rest == [] then [] else rest[1..];
        ys, n, sz := StepFromOldest(orig, lists0, old(store.live), ys, n, sz, w);
      }
      BehindAtEnd(orig, lists0, old(store.live), ys, n, sz);
      r := Ok(ys);
    }

    /** Before the first pass nothing is read yet and nothing has been prepended. */
    lemma BehindAtStart()
      requires store.Valid()
      ensures Behind(Revisions(), store.lists, store.live, [], 0, |Revisions()|)
    {
      var orig := Revisions();
      assert orig[|orig| - |orig|..] == orig;
      if orig != [] {
        assert store.lists == store.lists[key := orig];
      }
    }

    /** Once the cursor reaches the length, every revision of `orig` has been read. */
    lemma BehindAtEnd(orig: seq<Bytes>, lists0: map<string, seq<Bytes>>, live0: set<string>,
                      ys: seq<V>, n: nat, sz: nat)
      requires Behind(orig, lists0, live0, ys, n, sz) && sz <= n
      ensures ys == DecodeAll(store.serializer, orig)
      ensures store.lists == (if orig == [] then lists0 else lists0[key := Revisions()])
      ensures EndsWith(Revisions(), orig)
    {
      assert orig[..|ys|] == orig;
    }
  }
}
