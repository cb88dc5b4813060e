/**
  The session that the store's own documentation walks through, replayed in parts
  against the contracts of Store and Versions alone, each part on an engine that
  starts empty. The values are optional byte strings, written with the tagged
  serializer.
 */
module Session {
  import opened Wrappers
  import opened Serial
  import opened VerObject

  method NewLolcat() returns (lolcat: Store<Option<Bytes>>)
    ensures fresh(lolcat) && lolcat.Valid()
    ensures lolcat.serializer == Tagged() && lolcat.table == "lolcat"
    ensures lolcat.lists == map[] && lolcat.live == {}
  {
    lolcat := new Store<Option<Bytes>>("lolcat", Tagged(), map[], {});
  }

  /** A write, then a read of the newest revision; a delete drops the object. */
  method ReadWriteDelete(kitty: Option<Bytes>, again: Option<Bytes>)
  {
    TaggedRoundTrips();
    var lolcat := NewLolcat();
    var w := lolcat.Put("hk", kitty);
    var g := lolcat.Get("hk");
    assert g == Ok(kitty);
    w := lolcat.Put("hk", again);
    g := lolcat.Get("hk");
    assert g == Ok(again);
    w := lolcat.Remove("hk");
    g := lolcat.Get("hk");
    assert g == Err(KeyError("hk"));
  }

  /** Past versions, newest first; -1 is the oldest. */
  method PastVersions(kitty: Option<Bytes>, again: Option<Bytes>)
  {
    TaggedRoundTrips();
    var lolcat := NewLolcat();
    var w := lolcat.Put("hk", kitty);
    var vs := lolcat.VersionsOf("hk");
    var n := vs.Len();
    assert n == Ok(1);
    w := lolcat.Put("hk", again);
    n := vs.Len();
    assert n == Ok(2);
    var at := vs.At(0);
    assert at == Ok(again);
    at := vs.At(1);
    assert at == Ok(kitty);
    at := vs.At(-1);
    assert at == Ok(kitty);
  }

  /** Iterating while another writer prepends a revision after the first yield. */
  method IterateWhileWriting(kitty: Option<Bytes>, again: Option<Bytes>, late: Option<Bytes>)
  {
    TaggedRoundTrips();
    var lolcat := NewLolcat();
    var w := lolcat.Put("hk", kitty);
    w := lolcat.Put("hk", again);
    var vs := lolcat.VersionsOf("hk");
    ghost var before := [Tagged().dumps(again), Tagged().dumps(kitty)];
    assert vs.Revisions() == before;
    var all := vs.Iterate(k => if k == 1 then [Tagged().dumps(late)] else []);
    assert all == Ok(DecodeAll(Tagged(), before));
    assert all.value == [again, kitty] by {
      assert |all.value| == 2 && all.value[0] == again && all.value[1] == kitty;
    }
    var n := vs.Len();
    assert n == Ok(3);
  }

  /**
    The loop as written, with another writer prepending `late` between the second
    pass's length read and its revision read: the pass reads `again` a second
    time, the cursor then meets the length, and `kitty` is never yielded.
   */
  method RaceRepeatsRevision(kitty: Option<Bytes>, again: Option<Bytes>, late: Option<Bytes>)
  {
    TaggedRoundTrips();
    var lolcat := NewLolcat();
    var w := lolcat.Put("hk", kitty);
    w := lolcat.Put("hk", again);
    var vs := lolcat.VersionsOf("hk");
    var len := vs.Len();
    var first, n, sz := vs.StepAsWritten(0, len.value, Writes([], []));
    assert first == Some(again) && n == 1 && sz == 2;
    var second, n', sz' := vs.StepAsWritten(n, sz, Writes([], [Tagged().dumps(late)]));
    assert vs.Revisions()[1] == Tagged().dumps(again);
    assert second == Some(again);
    assert !(n' < sz');
  }

  /** The same writes against the loop that reads from the oldest end: both revisions, in order. */
  method RaceReadFromOldest(kitty: Option<Bytes>, again: Option<Bytes>, late: Option<Bytes>)
  {
    TaggedRoundTrips();
    var lolcat := NewLolcat();
    var w := lolcat.Put("hk", kitty);
    w := lolcat.Put("hk", again);
    var vs := lolcat.VersionsOf("hk");
    ghost var before := [Tagged().dumps(again), Tagged().dumps(kitty)];
    assert vs.Revisions() == before;
    ghost var decoded := DecodeAll(Tagged(), before);
    assert decoded == [again, kitty] by {
      assert |decoded| == 2 && decoded[0] == again && decoded[1] == kitty;
    }
    var all := vs.IterateFromOldest([Writes([], []), Writes([], [Tagged().dumps(late)])]);
    assert all == Ok([again, kitty]);
  }

  /** A missing object, a default in its place, and None stored as a real value. */
  method MissingAndNone()
  {
    TaggedRoundTrips();
    var lolcat := NewLolcat();
    var g := lolcat.Get("blah");
    assert g == Err(KeyError("blah"));
    var d := lolcat.GetOr("blah", Some([]));
    assert d == Ok(Some([]));
    var w := lolcat.Put("blah", None);
    g := lolcat.Get("blah");
    assert g == Ok(None);
    var blah := lolcat.VersionsOf("blah");
    var at := blah.At(10);
    assert at == Err(IndexError(10));
  }

  /** The reserved id is refused; the live set counts the ids; flush empties it. */
  method ReservedThenFlush(kitty: Option<Bytes>)
  {
    var lolcat := NewLolcat();
    var w := lolcat.Put("hk", kitty);
    w := lolcat.Put("blah", None);
    w := lolcat.Put("blah", kitty);
    w := lolcat.Put("__keys__", kitty);
    assert w == Fail(ValueError);
    var ids := lolcat.Ids();
    assert ids == {"hk", "blah"};
    var size := lolcat.Len();
    assert size == 2;
    lolcat.Flush();
    size := lolcat.Len();
    assert size == 0;
  }
}
