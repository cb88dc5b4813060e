# verobject in Dafny

A model of `verobject`, a version controlled object store over Redis. A `Store`
binds a table name to a Redis server and a serializer. Every object of the table
is a Redis list of serialized revisions stored under the key `"<table>.<id>"`,
newest revision at index 0. The ids that currently exist are the members of one
Redis set stored under `"<table>.__keys__"`. Writing never overwrites: it pushes
a new revision on the front of the object's list and adds the id to the live set.
Deleting drops the whole list and removes the id. `Versions` is a list-like view
of one object's revisions, read live from the server. Its iterator is meant to
keep working while other writers prepend revisions. Before every read it
re-reads the length and moves its cursor past whatever was prepended. This is
enough when writers act only while the generator is suspended after a yield.
It is not enough when a writer prepends between the length read and the
revision read (see "## Findings").

Files:

- `wrappers.dfy`: `Option`, the answer of Redis LINDEX (a payload or nothing).
- `serial.dfy`: byte payloads, the serializer as a pair of functions (`dumps`,
  `loads`), the round-trip property `RoundTrips`, `DecodeAll`, and a small
  tagged serializer for optional byte strings used by the session below.
- `verobject.dfy`: key derivation, Redis LINDEX semantics, the `Store` class (the
  server's lists and live set as fields `lists` and `live`) and the `Versions`
  class (a reference to the store and the object's key).
- `session.dfy`: the session from the module's own documentation, replayed
  against the contracts alone: read after write, past versions, iteration while
  another writer prepends, a writer racing the loop as written and the corrected
  loop, a missing id and a stored `None`, the reserved id, and flush.

Errors are values: `KeyError(sid)`, `ValueError`, `IndexError(n)`, and
`WrongType`. `WrongType` is what Redis answers to a list command (LINDEX, LLEN)
against the key of the live-id set. This happens for the id `"__keys__"` in
`store["__keys__"]` and `store.versions("__keys__")` while the set exists. Redis
keeps a set only while it is non-empty, so "the set exists" is `live != {}`.

The store's invariant `Valid()` says two things. The live-set key never holds a
list. The reserved id `"__keys__"` is never a member of the live set, because
every writer of that set refuses it.

The iterator is modelled twice.

- `Iterate` is the loop as written. It runs against writers that act only after
  a yield, while the generator is suspended: after the k-th yield they prepend a
  batch `env(k)`. Under that schedule it is proved to terminate and to yield
  `DecodeAll` of the list as it was at the start, in order. The list afterwards
  is the prepended batches in front of that list, with no other key and no
  live-set member changed.
- `IterateFromOldest` is the corrected loop. It reads each revision as
  `self[n - sz]`, counted from the oldest end. It runs against writers that may
  prepend at every point between the reader's commands: one batch before each
  length read and one right after it, for any finite list of such batches.
  Under those writers it is proved to terminate and to yield exactly the
  decoded revisions present at its start. The list keeps them as its oldest
  part.

Indexing a `Versions` accepts negative indices, Redis style: `-1` is the oldest
revision. Only indices outside `-len .. len-1` raise `IndexError`. Reading the
id `"__keys__"` is not refused by the store. It reaches Redis and gets a type
error while the live set exists.

## Model

| member | source | states |
|---|---|---|
| VerObject.KeyOf | verobject.py:131 | an object key starts with the table name followed by `.`, and its length is `len(table) + 1 + len(sid)`, so the id fills the rest |
| VerObject.KeyListKey | verobject.py:122 | the live-set key `table + ".__keys__"` is exactly the object key the id `"__keys__"` would get |
| VerObject.KeyReserved | verobject.py:138-140 | the object key `"%s.%s" % (table, sid)` equals the live-set key `table + ".__keys__"` exactly when `sid` is `"__keys__"`, both directions |
| VerObject.KeyInjective | verobject.py:131 | within one table two ids share an object key only when they are the same id, so writing one object never touches another's list |
| VerObject.LIndexRange | verobject.py:183-187 | Redis LINDEX answers a payload exactly for `-len <= n < len`; for `0 <= n` it is element `n`; for negative `n` it is element `len + n` |
| VerObject.LIndexPrepend | verobject.py:194-197 | after `extra` is prepended, index `n + len(extra)` holds what index `n` held before: the shift the iterator absorbs, used by `YieldStep` |
| VerObject.LIndexStale | verobject.py:194-200 | a read at the cursor after an unseen prepend of `racer` finds element `k - len(racer)` of the starting list, one already read, instead of element `k` (or a prepended revision when `racer` is longer) |
| VerObject.LIndexFromOldest | verobject.py:200 | an index counted from the oldest end, `k - len(xs)`, finds element `k` of `xs` whatever was prepended in front of it |
| VerObject.Store.constructor | verobject.py:118-122 | binds the table and serializer to a server's existing lists and live set; the live-set key is `table + ".__keys__"` |
| VerObject.Store.LIndexOf | verobject.py:132 | `lindex` on a table key: `WrongType` exactly when the key is the existing live set, otherwise the LINDEX answer on the stored list (absent key = empty list) |
| VerObject.Store.LLenOf | verobject.py:181 | `llen` on a table key: `WrongType` exactly when the key is the existing live set, otherwise the stored list's length |
| VerObject.Store.Get | verobject.py:130-135 | `store[sid]`: `KeyError(sid)` exactly when the object has no revision; otherwise the decoded newest revision; `WrongType` for `"__keys__"` while the live set exists |
| VerObject.Store.Put | verobject.py:137-142 | `store[sid] = v`: `ValueError` exactly for `"__keys__"`, with nothing changed; otherwise one revision `dumps(v)` is prepended to the object's list and `sid` joins the live set; every other id's revisions are unchanged |
| VerObject.Store.Remove | verobject.py:144-149 | `del store[sid]`: `ValueError` exactly for `"__keys__"`, with nothing changed; otherwise the object's list is gone and `sid` has left the live set, and deleting an absent id changes nothing; other ids' revisions are unchanged |
| VerObject.Store.Len | verobject.py:151-152 | `len(store)` is the number of live ids |
| VerObject.Store.Ids | verobject.py:154-155 | `iter(store)` enumerates exactly the live ids |
| VerObject.Store.GetOr | verobject.py:157-161 | `store.get(sid, default)`: `default` when the object has no revision, the decoded newest revision otherwise; a stored value is returned even when it equals `default` or `None` |
| VerObject.Store.Flush | verobject.py:163-166 | deleting every id of a snapshot of the live set, then the set itself, leaves the live set empty and removes exactly the lists of the ids that were live |
| VerObject.Store.PushFront | verobject.py:141 | another writer's LPUSH of a batch: the batch lands in front of the existing list, nothing else changes |
| VerObject.Store.VersionsOf | verobject.py:168-169 | `store.versions(sid)` is a fresh view bound to this store and the object's key |
| VerObject.Versions.constructor | verobject.py:175-178 | the view shares the store's server and serializer and reads the key `"%s.%s" % (table, sid)` |
| VerObject.Versions.Len | verobject.py:180-181 | `len(versions)` is the current number of revisions (`WrongType` on the existing live-set key) |
| VerObject.Versions.At | verobject.py:183-187 | `versions[n]`: the decoded revision `n` for `0 <= n < len`, revision `len + n` for `-len <= n < 0`, `IndexError(n)` exactly outside that range |
| VerObject.Versions.YieldStep | verobject.py:199-201 | when the length is unchanged the revision at the cursor is the next revision of the starting list; yielding it and letting writers prepend the next batch keeps the iteration's invariant with one more revision yielded |
| VerObject.Versions.Iterate | verobject.py:189-201 | the loop as written, with writers prepending only while it is suspended after a yield: it terminates and yields exactly the decoded revisions present at its start, newest to oldest; the list ends as the prepended batches in front of the starting list |
| VerObject.Versions.StepAsWritten | verobject.py:193-201 | one pass as written with writes before and right after the length read: it skips exactly when the length grew past `sz`, moving the cursor by the growth; otherwise it reads revision `n` of the list as it stands after the second write |
| VerObject.Versions.StepFromOldest | verobject.py:193-201 | one pass reading `self[n - sz]`: whatever is prepended before or after the length read, a revision read is the next revision of the starting list, and the list keeps that list as its oldest part |
| VerObject.Versions.IterateFromOldest | verobject.py:189-201 | the corrected loop, under any finite interleaving of prepends with its reads: it terminates and yields exactly the decoded revisions present at its start, newest to oldest; only this object's list changes, and it still ends with the starting list |
| VerObject.ReadAfterWrite | verobject.py:130-149 | for any store, id and value with a round-tripping serializer: `store[sid]` and `store.get` read back the value written, `versions(sid)[1]` is the revision it replaced (`IndexError(1)` when there was none), and after `del` the id is missing; the reserved id is refused by both writers |

## Findings

| source | as written | input that shows it | evidently intended | confidence | as-written member | corrected member |
|---|---|---|---|---|---|---|
| verobject.py:194-200 | the length is read (`sz2 = len(self)`) and the revision is read (`self[n]`) by two separate commands, and `n` counts from the newest end | revisions `[a, b]`; after `a` is yielded, another writer prepends `c` between the LLEN and the LINDEX of the next pass: LINDEX 1 answers `a` again, `n` then equals `sz`, and `b` is never yielded | every revision present when iteration starts is yielded once, newest to oldest, whatever other writers prepend; reading `self[n - sz]`, counted from the oldest end, does this | not executed | VerObject.Versions.StepAsWritten | VerObject.Versions.IterateFromOldest |

`VerObject.LIndexStale` states the stale read for every list and racer, and
`Session.RaceRepeatsRevision` runs the input above through `StepAsWritten`.
`Session.RaceReadFromOldest` runs the same writes through `IterateFromOldest`,
which yields `[again, kitty]`.

## Left out

- The default Redis connection (`redis.StrictRedis()`) is I/O. The server's state is the store's `lists` and `live` fields, given to the constructor.
- The default `cPickle` serializer is a foreign library. The serializer is any pair of functions. `ReadAfterWrite` requires the pair to round-trip (`RoundTrips`); the session uses the tagged serializer, for which that is proved.
- The write is two separate server calls (LPUSH, then SADD). Other processes interleaving between them are not modelled; the model runs the two updates in sequence.
- VerObject.Versions.Iterate: the writers act only while the generator is suspended after a yield. A prepend between the LLEN and the LINDEX of one pass breaks the loop as written (see "## Findings"); `IterateFromOldest` covers that schedule.
- VerObject.Versions.IterateFromOldest: the writers prepend a finite list of batches. Writers that prepend before every length read without end keep the source's skip branch running forever, in the corrected loop as in the original; the model does not state that starvation.
- VerObject.Versions.Iterate: a list that shrinks during iteration is not modelled. The environment only prepends, so the `assert sz == sz2` of the source is proved to hold.
- VerObject.Versions.Iterate: iteration is consumed to the end (`list(versions)`). In Python the first length is read at the first `next()`; the model reads it when `Iterate` is called.
- VerObject.Store.GetOr: the default is an explicit argument. Python's `default=None` needs a value type that holds `None`, which a generic value type does not.
- `dumps` is total. A serializer that raises on an object it cannot encode, before the LPUSH of `store[sid] = v`, is not modelled; nor are decoding failures of `loads`.
- Ids are strings. Python's `"%s"` formatting of non-string ids is not modelled.
- Keys of other tables on the same server are not modelled. So a table key that equals another table's live-set key, and the type error Redis would then give, are not modelled either.
- `Versions.__getitem__` converts its index with `int(n)`. The model's index is already an integer.
- The doctest runner and `setup.py` are packaging. The `datetime` and unicode doctests only exercise the serializer, which is abstract here.
