/** One author's chain of changes arriving in any order: how much of it survives the orphan buffer
    (crates/fofoca-doc/src/lib.rs, crates/fofoca-util/src/consts.rs). */
module Backfill {
  import opened Collections
  import opened Options
  import opened MeshDocs

  // A frame that carries a change.
  type Carrier = f: Frame | f.change.Some? witness Frame("", "", Some(Change("", 0, [], "")), "")

  // Frames of one author, numbered from `first`, each change waiting on the one before.
  ghost predicate IsChain(chain: seq<Carrier>, pubkey: string, first: nat) {
    forall i :: 0 <= i < |chain| ==>
      IsHonest(chain[i]) && chain[i].pubkey == pubkey && chain[i].change.value.serial == first + i && HangsOn(chain, i)
  }

  ghost predicate HangsOn(chain: seq<Carrier>, i: nat)
    requires i < |chain|
  {
    i > 0 ==> ChangeAt(chain, i - 1) in ChangeAt(chain, i).deps
  }

  ghost function ChangeAt(chain: seq<Carrier>, i: nat): Change
    requires i < |chain|
  {
    chain[i].change.value
  }

  // The changes at some places in the chain.
  ghost function Named(chain: seq<Carrier>, places: set<nat>): set<Change>
  {
    set i | i in places && i < |chain| :: ChangeAt(chain, i)
  }

  function Stretch(from: nat, end: nat): (places: set<nat>)
    requires from <= end
    ensures |places| == end - from && forall i :: i in places <==> from <= i < end
    decreases end
  {
    if from == end then {} else Stretch(from, end - 1) + {end - 1}
  }

  ghost predicate IsTop(places: set<nat>, y: nat) {
    y in places && forall i :: i in places ==> i <= y
  }

  // What of the chain is waiting: the places kept, each in its own frame.
  ghost predicate Holds(pending: map<Change, Pending>, chain: seq<Carrier>, pubkey: string, kept: set<nat>)
  {
    && Of(pending, pubkey) == Named(chain, kept)
    && forall i :: i in kept ==> i < |chain| && ChangeAt(chain, i) in pending && pending[ChangeAt(chain, i)].frame == chain[i]
  }

  // The newcomer is kept as well, or, at the author's ceiling, the highest place of all, perhaps the
  // newcomer's own, is given up and its key handed back.
  ghost predicate Displaces(chain: seq<Carrier>, kept: set<nat>, x: nat, now: set<nat>, gone: seq<string>) {
    if |kept| < PENDING_AUTHOR_MAX then now == kept + {x} && gone == []
    else exists y: nat :: IsTop(kept + {x}, y) && y < |chain| && now == kept + {x} - {y} && gone == [chain[y].dedupKey]
  }

  // An orphan of the chain takes its place among the lowest.
  lemma OrphanArrives(chain: seq<Carrier>, pubkey: string, first: nat, kept: set<nat>, x: nat,
                      before: map<Change, Pending>, after: map<Change, Pending>, entry: Pending, gone: seq<string>,
                      outcome: Ingested)
    returns (now: set<nat>)
    requires IsChain(chain, pubkey, first) && x < |chain| && x !in kept
    requires |kept| <= PENDING_AUTHOR_MAX && Holds(before, chain, pubkey, kept)
    requires forall h :: h in before ==> before[h].change == h
    requires entry.frame == chain[x] && entry.change == ChangeAt(chain, x) && entry.change !in before
    requires |before| + PENDING_AUTHOR_MAX <= PENDING_TOTAL_MAX + |kept|
    requires Buffers(before, after, entry, gone, outcome)
    ensures Holds(after, chain, pubkey, now) && |after| - |now| == |before| - |kept|
    ensures Displaces(chain, kept, x, now, gone)
  {
    hide Buffers, Holds, IsChain, Displaces, Of;
    HeldSize(chain, pubkey, first, kept, x, before);
    if |kept| < PENDING_AUTHOR_MAX {
      RoomToJoin(before, after, entry, gone, outcome);
      Joining(chain, pubkey, first, kept, x, before, entry);
      now := kept + {x};
      Joins(chain, kept, x);
    } else {
      var y := HighestPlace(chain, pubkey, first, kept, before, after, entry, gone, outcome);
      if x > y {
        now := kept;
        GoesPast(chain, kept, x, y);
      } else {
        now := kept - {y} + {x};
        Swapping(chain, pubkey, first, kept, x, y, before, entry);
        TakesPlace(chain, kept, x, y);
      }
    }
  }

  lemma Joins(chain: seq<Carrier>, kept: set<nat>, x: nat)
    requires |kept| < PENDING_AUTHOR_MAX && x !in kept
    ensures Displaces(chain, kept, x, kept + {x}, []) && |kept + {x}| == |kept| + 1
  {
  }

  lemma GoesPast(chain: seq<Carrier>, kept: set<nat>, x: nat, y: nat)
    requires |kept| == PENDING_AUTHOR_MAX && x !in kept && x < |chain| && IsTop(kept, y) && x > y
    ensures Displaces(chain, kept, x, kept, [chain[x].dedupKey])
  {
    assert kept + {x} - {x} == kept;
    assert IsTop(kept + {x}, x);
  }

  lemma TakesPlace(chain: seq<Carrier>, kept: set<nat>, x: nat, y: nat)
    requires |kept| == PENDING_AUTHOR_MAX && x !in kept && IsTop(kept, y) && x <= y < |chain|
    ensures Displaces(chain, kept, x, kept - {y} + {x}, [chain[y].dedupKey]) && |kept - {y} + {x}| == |kept|
  {
    assert kept - {y} + {x} == kept + {x} - {y};
    assert IsTop(kept + {x}, y);
  }

  lemma HeldSize(chain: seq<Carrier>, pubkey: string, first: nat, kept: set<nat>, x: nat, before: map<Change, Pending>)
    requires IsChain(chain, pubkey, first) && |kept| <= PENDING_AUTHOR_MAX && Holds(before, chain, pubkey, kept)
    requires x < |chain|
    ensures |Of(before, pubkey)| == |kept| && forall i :: i in kept ==> i < |chain|
    ensures ChangeAt(chain, x).serial == first + x && chain[x].pubkey == pubkey
  {
    NamedSize(chain, pubkey, first, kept);
  }

  lemma RoomToJoin(before: map<Change, Pending>, after: map<Change, Pending>, entry: Pending, gone: seq<string>,
                   outcome: Ingested)
    requires Buffers(before, after, entry, gone, outcome) && entry.change !in before
    requires |Of(before, entry.frame.pubkey)| < PENDING_AUTHOR_MAX && |before| < PENDING_TOTAL_MAX
    ensures after == before[entry.change := entry] && gone == []
  {
  }

  lemma Joining(chain: seq<Carrier>, pubkey: string, first: nat, kept: set<nat>, x: nat, before: map<Change, Pending>,
                entry: Pending)
    requires IsChain(chain, pubkey, first) && x < |chain| && x !in kept && (forall i :: i in kept ==> i < |chain|)
    requires Holds(before, chain, pubkey, kept) && entry.change !in before
    requires entry.frame == chain[x] && entry.change == ChangeAt(chain, x)
    ensures Holds(before[entry.change := entry], chain, pubkey, kept + {x})
    ensures |before[entry.change := entry]| == |before| + 1
  {
    OfAdded(before, entry.change, entry, pubkey);
    assert Named(chain, kept + {x}) == Named(chain, kept) + {entry.change};
  }

  lemma Leaving(chain: seq<Carrier>, pubkey: string, first: nat, kept: set<nat>, y: nat, before: map<Change, Pending>)
    requires IsChain(chain, pubkey, first) && y in kept && (forall i :: i in kept ==> i < |chain|)
    requires Holds(before, chain, pubkey, kept)
    ensures Holds(before - {ChangeAt(chain, y)}, chain, pubkey, kept - {y})
    ensures |before - {ChangeAt(chain, y)}| == |before| - 1
  {
    OfRemoved(before, ChangeAt(chain, y), pubkey);
    assert Named(chain, kept - {y}) == Named(chain, kept) - {ChangeAt(chain, y)};
  }

  lemma Swapping(chain: seq<Carrier>, pubkey: string, first: nat, kept: set<nat>, x: nat, y: nat,
                 before: map<Change, Pending>, entry: Pending)
    requires IsChain(chain, pubkey, first) && x < |chain| && x !in kept && y in kept &&
        (forall i :: i in kept ==> i < |chain|)
    requires Holds(before, chain, pubkey, kept) && entry.change !in before
    requires entry.frame == chain[x] && entry.change == ChangeAt(chain, x)
    ensures Holds((before - {ChangeAt(chain, y)})[entry.change := entry], chain, pubkey, kept - {y} + {x})
    ensures |(before - {ChangeAt(chain, y)})[entry.change := entry]| == |before|
  {
    hide Holds, IsChain;
    Leaving(chain, pubkey, first, kept, y, before);
    Joining(chain, pubkey, first, kept - {y}, x, before - {ChangeAt(chain, y)}, entry);
  }

  // The author's highest orphan is the last place kept.
  lemma HighestPlace(chain: seq<Carrier>, pubkey: string, first: nat, kept: set<nat>, before: map<Change, Pending>,
                     after: map<Change, Pending>, entry: Pending, gone: seq<string>, outcome: Ingested)
    returns (y: nat)
    requires IsChain(chain, pubkey, first) && (forall i :: i in kept ==> i < |chain|)
    requires Holds(before, chain, pubkey, kept) && |Of(before, pubkey)| == PENDING_AUTHOR_MAX
    requires forall h :: h in before ==> before[h].change == h
    requires entry.change !in before && entry.frame.pubkey == pubkey && entry.change.serial >= first
    requires Buffers(before, after, entry, gone, outcome)
    ensures IsTop(kept, y) && y < |chain|
    ensures if entry.change.serial >= first + y then after == before && gone == [entry.frame.dedupKey]
            else after == (before - {ChangeAt(chain, y)})[entry.change := entry] && gone == [chain[y].dedupKey]
  {
    var victim :| IsHighest(before, pubkey, victim)
               && if entry.change.serial >= victim.serial then after == before && gone == [entry.frame.dedupKey]
                  else after == (before - {victim})[entry.change := entry] && gone == [before[victim].frame.dedupKey];
    y :| y in kept && ChangeAt(chain, y) == victim;
    hide Buffers;
    forall i | i in kept ensures i <= y {
      assert ChangeAt(chain, i) in Of(before, pubkey);
    }
  }

  lemma {:induction false} NamedSize(chain: seq<Carrier>, pubkey: string, first: nat, places: set<nat>)
    requires IsChain(chain, pubkey, first) && forall i :: i in places ==> i < |chain|
    ensures |Named(chain, places)| == |places|
    decreases |places|
  {
    if places != {} {
      var i :| i in places;
      NamedSize(chain, pubkey, first, places - {i});
      assert Named(chain, places) == Named(chain, places - {i}) + {ChangeAt(chain, i)};
      assert ChangeAt(chain, i) !in Named(chain, places - {i});
    }
  }

  // ---- What has come, and what of it can land ----

  // The first of the places from `from` on that has not come.
  ghost function Gap(come: set<nat>, n: nat, from: nat := 0): (gap: nat)
    requires from <= n
    ensures from <= gap <= n && (gap < n ==> gap !in come) && forall i :: from <= i < gap ==> i in come
    decreases n - from
  {
    if from < n && from in come then Gap(come, n, from + 1) else from
  }

  lemma GapIs(come: set<nat>, n: nat, gap: nat)
    requires gap <= n && (gap < n ==> gap !in come) && forall i :: 0 <= i < gap ==> i in come
    ensures Gap(come, n) == gap
  {
    var g := Gap(come, n);
    assert g < gap ==> g in come;
    assert gap < g ==> gap in come;
  }

  // What has come past the first gap and is lower than `y`.
  ghost function Between(come: set<nat>, n: nat, y: nat): set<nat> {
    set i | i in come && Gap(come, n) < i < y
  }

  // The place has come, and so has all an author may have waiting, between the first gap and it.
  ghost predicate Crowded(come: set<nat>, n: nat, y: nat) {
    y in come && y < n && |Between(come, n, y)| >= PENDING_AUTHOR_MAX
  }

  // Everything below has landed.
  ghost function Front(come: set<nat>, n: nat, end: nat): nat {
    var gap := Gap(come, n);
    if gap < end then gap else end
  }

  // How far the chain has come: what has landed, which places wait, and `end`, the lowest place that
  // has been given up, or the length of the chain.
  ghost predicate Flows(doc: set<Change>, pending: map<Change, Pending>, lost: set<Change>, chain: seq<Carrier>,
                        pubkey: string, come: set<nat>, kept: set<nat>, end: nat) {
    && Holds(pending, chain, pubkey, kept) && |pending| + PENDING_AUTHOR_MAX <= PENDING_TOTAL_MAX + |kept|
    && Placed(come, kept, |chain|, end)
    && DocIs(doc, chain, Front(come, |chain|, end)) && NoneLost(lost, chain, come, kept, end)
  }

  // Exactly the first links are in the document.
  ghost predicate DocIs(doc: set<Change>, chain: seq<Carrier>, front: nat) {
    forall i :: 0 <= i < |chain| ==> (ChangeAt(chain, i) in doc <==> i < front)
  }

  ghost predicate NoneLost(lost: set<Change>, chain: seq<Carrier>, come: set<nat>, kept: set<nat>, end: nat) {
    forall i :: i in come && i < |chain| && (i < end || i in kept) ==> ChangeAt(chain, i) !in lost
  }

  // What waits lies past what has landed, and of what has come below the end nothing is missing.
  ghost predicate Placed(come: set<nat>, kept: set<nat>, n: nat, end: nat) {
    && end <= n && |kept| <= PENDING_AUTHOR_MAX && kept <= come && (forall i :: i in come ==> i < n)
    && (end < n ==> end in come) && end !in kept
    && (forall i :: i in kept ==> Front(come, n, end) <= i)
    && forall i :: i in come && Front(come, n, end) <= i < end ==> i in kept
  }

  // Nothing below the end is crowded.
  lemma NoneCrowded(come: set<nat>, kept: set<nat>, n: nat, end: nat, y: nat)
    requires Placed(come, kept, n, end) && y < end
    ensures !Crowded(come, n, y)
  {
    var between := Between(come, n, y);
    if y in come {
      if Gap(come, n) < y {
        assert between + {y} <= kept;
        PartIsSmaller(between + {y}, kept);
        assert y !in between;
      } else {
        assert between == {};
      }
    }
  }

  // ---- One more place comes ----

  // What waits, and the lowest place that has been given up, or the length of the chain.
  datatype Wait = Wait(kept: set<nat>, end: nat)

  ghost function Highest(places: set<nat>): (y: nat)
    requires places != {}
    ensures IsTop(places, y)
  {
    HasTop(places);
    var y :| IsTop(places, y);
    y
  }

  lemma {:induction false} HasTop(places: set<nat>)
    requires places != {}
    ensures exists y :: IsTop(places, y)
    decreases |places|
  {
    var x :| x in places;
    if places == {x} {
      assert IsTop(places, x);
    } else {
      HasTop(places - {x});
      var y :| IsTop(places - {x}, y);
      assert places == places - {x} + {x};
      assert IsTop(places, if x < y then y else x);
    }
  }

  // One more place comes: it lands with all that waited for it, or joins the wait, or the highest place
  // of all, perhaps its own, is given up.
  ghost function Joined(was: Wait, come: set<nat>, n: nat, x: nat): Wait {
    if x == Front(come, n, was.end) then Wait(Past(was.kept, Front(come + {x}, n, was.end)), was.end)
    else if |was.kept| < PENDING_AUTHOR_MAX then Wait(was.kept + {x}, was.end)
    else
      var y := Highest(was.kept + {x});
      Wait(was.kept + {x} - {y}, if y < was.end then y else was.end)
  }

  // An orphan past the front: the front stays, and the end moves only to a place that is crowded out.
  lemma OrphanPlaced(come: set<nat>, kept: set<nat>, n: nat, end: nat, x: nat)
    requires Placed(come, kept, n, end) && x !in come && Front(come, n, end) < x < n
    ensures var w := Joined(Wait(kept, end), come, n, x);
            && Placed(come + {x}, w.kept, n, w.end) && w.end <= end
            && Front(come + {x}, n, w.end) == Front(come, n, end)
            && (w.end < end ==> Crowded(come + {x}, n, w.end))
  {
    var w := Joined(Wait(kept, end), come, n, x);
    assert Front(come, n, end) !in kept;
    hide Front, Gap;
    if |kept| < PENDING_AUTHOR_MAX {
      FrontStays(come, n, end, x, end);
      JoinerPlaced(come, kept, n, end, x);
    } else {
      var y := Highest(kept + {x});
      assert y in kept + {x};
      FrontStays(come, n, end, x, w.end);
      HighestGone(come, kept, n, end, x, y, w.end);
      if y < end {
        assert w.kept <= Between(come + {x}, n, y);
        PartIsSmaller(w.kept, Between(come + {x}, n, y));
      }
    }
  }

  // What displacing leaves waiting.
  lemma DisplacesIs(chain: seq<Carrier>, come: set<nat>, kept: set<nat>, end: nat, x: nat, now: set<nat>,
                    gone: seq<string>)
    requires Displaces(chain, kept, x, now, gone) && x != Front(come, |chain|, end)
    ensures now == Joined(Wait(kept, end), come, |chain|, x).kept
  {
    hide Front;
  }

  lemma JoinerPlaced(come: set<nat>, kept: set<nat>, n: nat, end: nat, x: nat)
    requires Placed(come, kept, n, end) && x !in come && Front(come, n, end) < x < n && |kept| < PENDING_AUTHOR_MAX
    requires Front(come + {x}, n, end) == Front(come, n, end)
    ensures Placed(come + {x}, kept + {x}, n, end)
  {
    hide Front, Gap;
  }

  lemma HighestGone(come: set<nat>, kept: set<nat>, n: nat, end: nat, x: nat, y: nat, e: nat)
    requires Placed(come, kept, n, end) && x !in come && Front(come, n, end) < x < n && |kept| == PENDING_AUTHOR_MAX
    requires IsTop(kept + {x}, y) && e == (if y < end then y else end)
    requires Front(come + {x}, n, e) == Front(come, n, end)
    ensures Placed(come + {x}, kept + {x} - {y}, n, e) && |kept + {x} - {y}| == |kept|
  {
    hide Front, Gap;
    assert kept + {x} - {y} + {y} == kept + {x};
  }

  lemma FrontStays(come: set<nat>, n: nat, end: nat, x: nat, e: nat)
    requires x !in come && Front(come, n, end) < x < n && end <= n && (end < n ==> end in come)
    requires e == end || (Front(come, n, end) < e < end && Front(come, n, end) < end)
    ensures Front(come + {x}, n, e) == Front(come, n, end)
    ensures Front(come, n, end) < end ==> Gap(come + {x}, n) == Gap(come, n) == Front(come, n, end)
  {
    var gap := Gap(come, n);
    if gap < end {
      GapIs(come + {x}, n, gap);
    } else {
      assert forall i :: 0 <= i < end ==> i in come + {x};
    }
  }

  ghost function Past(kept: set<nat>, front: nat): set<nat> {
    set i | i in kept && front <= i
  }

  // The place at the front: it lands with everything up to the next gap, or up to the end.
  lemma LandingPlaced(come: set<nat>, kept: set<nat>, n: nat, end: nat, x: nat)
    requires Placed(come, kept, n, end) && x !in come && x == Front(come, n, end) < n
    ensures var front := Front(come + {x}, n, end);
            && x < front <= end && Placed(come + {x}, Past(kept, front), n, end)
            && (forall i :: x < i < front ==> i in kept)
            && (front < n ==> front == end || front !in come + {x})
  {
    var gap := Gap(come + {x}, n);
    assert x < gap by {
      assert gap == x ==> gap in come + {x};
      assert gap < x ==> gap in come;
    }
    PartIsSmaller(Past(kept, Front(come + {x}, n, end)), kept);
  }

  // With a link missing from a document, nothing past it is there.
  lemma {:induction false} NothingPast(doc: set<Change>, chain: seq<Carrier>, pubkey: string, first: nat, gap: nat,
                                       i: nat)
    requires Closed(doc) && IsChain(chain, pubkey, first) && gap <= i < |chain| && ChangeAt(chain, gap) !in doc
    ensures ChangeAt(chain, i) !in doc
  {
    if gap < i {
      NothingPast(doc, chain, pubkey, first, gap, i - 1);
      assert HangsOn(chain, i);
      assert ChangeAt(chain, i) in doc ==> Ready(doc, ChangeAt(chain, i));
    }
  }

  // What still waits after a landing.
  lemma StillHolds(before: map<Change, Pending>, after: map<Change, Pending>, chain: seq<Carrier>, pubkey: string,
                   kept: set<nat>, front: nat)
    requires Holds(before, chain, pubkey, kept)
    requires forall h :: h in after ==> h in before && after[h] == before[h]
    requires forall i :: i in kept && i < |chain| ==> (ChangeAt(chain, i) in after <==> front <= i)
    ensures Holds(after, chain, pubkey, Past(kept, front))
  {
    forall h ensures h in Of(after, pubkey) <==> h in Named(chain, Past(kept, front)) {
      assert h in Of(before, pubkey) <==> h in Named(chain, kept);
      if h in Of(after, pubkey) {
        var i :| i in kept && i < |chain| && h == ChangeAt(chain, i);
        assert i in Past(kept, front);
      }
    }
  }

  lemma LandedHaveLeft(before: map<Change, Pending>, after: map<Change, Pending>, chain: seq<Carrier>, pubkey: string,
                       kept: set<nat>, front: nat, landed: set<nat>)
    requires Holds(before, chain, pubkey, kept) && after.Keys <= before.Keys
    requires forall i :: i in kept && i < |chain| && i < front ==> ChangeAt(chain, i) !in after
    requires forall i :: i in landed ==> i in kept && i < front
    ensures Named(chain, landed) <= before.Keys && after.Keys <= before.Keys - Named(chain, landed)
  {
  }

  // As many have left the buffer as have landed.
  lemma FewerWait(before: map<Change, Pending>, after: map<Change, Pending>, chain: seq<Carrier>, pubkey: string,
                  first: nat, kept: set<nat>, front: nat)
    requires IsChain(chain, pubkey, first) && Holds(before, chain, pubkey, kept) && after.Keys <= before.Keys
    requires forall i :: i in kept && i < |chain| && i < front ==> ChangeAt(chain, i) !in after
    ensures |after| - |Past(kept, front)| <= |before| - |kept|
  {
    var landed := set i | i in kept && i < front;
    assert forall i :: i in landed ==> i < |chain|;
    NamedSize(chain, pubkey, first, landed);
    LandedHaveLeft(before, after, chain, pubkey, kept, front, landed);
    hide IsChain, Holds, Named, Past;
    assert kept == Past(kept, front) + landed && Past(kept, front) !! landed by {
      PastIsRest(kept, front, landed);
    }
    FewerLeft(before.Keys, after.Keys, Named(chain, landed));
  }

  lemma PastIsRest(kept: set<nat>, front: nat, landed: set<nat>)
    requires forall i :: i in landed <==> i in kept && i < front
    ensures kept == Past(kept, front) + landed && Past(kept, front) !! landed
  {
  }

  lemma FewerLeft<T>(before: set<T>, after: set<T>, left: set<T>)
    requires left <= before && after <= before - left
    ensures |after| <= |before| - |left|
  {
    PartIsSmaller(after, before - left);
    assert before == (before - left) + left;
  }

  ghost predicate NoneSeen(chain: seq<Carrier>, delivered: set<Change>) {
    forall i :: 0 <= i < |chain| ==> ChangeAt(chain, i) !in delivered
  }

  // Nothing in the chain waits on anything but the link before and what the document holds.
  ghost predicate HangsOff(chain: seq<Carrier>, doc: set<Change>) {
    forall i :: 0 <= i < |chain| ==> LinkHangsOff(chain, i, doc)
  }

  ghost predicate LinkHangsOff(chain: seq<Carrier>, i: nat, doc: set<Change>)
    requires i < |chain|
  {
    forall d :: d in ChangeAt(chain, i).deps ==> d in doc || (i > 0 && d == ChangeAt(chain, i - 1))
  }

  // Landing one link lands every link after it that waits for nothing else.
  lemma {:induction false} RunLands(doc: set<Change>, pending: map<Change, Pending>, lost: set<Change>,
                                    delivered: set<Change>, chain: seq<Carrier>, pubkey: string, first: nat,
                                    base: set<Change>, from: nat, upto: nat)
    requires IsSettled(doc, pending, lost, delivered) && IsChain(chain, pubkey, first)
    requires HangsOff(chain, base) && base <= doc && from <= upto <= |chain|
    requires forall i :: 0 <= i < from ==> ChangeAt(chain, i) in doc
    requires forall i :: from <= i < upto ==> ChangeAt(chain, i) in delivered - lost
    ensures forall i :: 0 <= i < upto ==> ChangeAt(chain, i) in doc
    decreases upto - from
  {
    if from < upto {
      var c := ChangeAt(chain, from);
      assert LinkHangsOff(chain, from, base);
      assert Ready(doc, c);
      assert c in delivered - lost;
      RunLands(doc, pending, lost, delivered, chain, pubkey, first, base, from + 1, upto);
    }
  }

  // The changes of two places differ.
  lemma PlacesDiffer(chain: seq<Carrier>, pubkey: string, first: nat, places: set<nat>, i: nat)
    requires IsChain(chain, pubkey, first) && i < |chain| && i !in places
    ensures ChangeAt(chain, i) !in Named(chain, places)
  {
  }

  // The link at the front is nowhere to be had: it has not come, or has been given up.
  lemma FrontIsMissing(doc: set<Change>, before: set<Change>, waited: map<Change, Pending>, chain: seq<Carrier>,
                       pubkey: string, first: nat, delivered: set<Change>, come: set<nat>, kept: set<nat>, x: nat,
                       front: nat)
    requires IsChain(chain, pubkey, first) && x < front < |chain|
    requires doc <= before + waited.Keys + {ChangeAt(chain, x)} && doc <= delivered
    requires Holds(waited, chain, pubkey, kept) && forall h :: h in waited ==> waited[h].frame.pubkey == h.actor
    requires if front in come then front !in kept && ChangeAt(chain, front) !in before
             else delivered !! (Named(chain, Stretch(0, |chain|)) - Named(chain, come + {x}))
    ensures ChangeAt(chain, front) !in doc
  {
    var c := ChangeAt(chain, front);
    if front in come {
      PlacesDiffer(chain, pubkey, first, kept, front);
      PlacesDiffer(chain, pubkey, first, {x}, front);
      assert c in waited ==> c in Of(waited, pubkey);
    } else {
      PlacesDiffer(chain, pubkey, first, come + {x}, front);
    }
  }

  // Exactly what is below the new front has landed.
  lemma LandingDoc(was: set<Change>, waited: map<Change, Pending>, lost: set<Change>, doc: set<Change>,
                   pending: map<Change, Pending>, delivered: set<Change>, chain: seq<Carrier>, pubkey: string,
                   first: nat, base: set<Change>, come: set<nat>, kept: set<nat>, end: nat, x: nat)
    requires IsSettled(doc, pending, lost, delivered) && IsChain(chain, pubkey, first)
    requires HangsOff(chain, base) && base <= doc
    requires Placed(come, kept, |chain|, end) && DocIs(was, chain, x) && NoneLost(lost, chain, come, kept, end)
    requires Holds(waited, chain, pubkey, kept) && forall h :: h in waited ==> waited[h].frame.pubkey == h.actor
    requires x !in come && x == Front(come, |chain|, end) < |chain|
    requires was + {ChangeAt(chain, x)} <= doc <= was + waited.Keys + {ChangeAt(chain, x)}
    requires Named(chain, come + {x}) <= delivered
    requires delivered !! (Named(chain, Stretch(0, |chain|)) - Named(chain, come + {x}))
    ensures DocIs(doc, chain, Front(come + {x}, |chain|, end))
  {
    var front := Front(come + {x}, |chain|, end);
    LandingPlaced(come, kept, |chain|, end, x);
    LandedAreThere(lost, delivered, chain, come, kept, end, x, front);
    FrontLinkIsMissing(was, waited, doc, delivered, chain, pubkey, first, come, kept, end, x, front);
    BelowHasLanded(was, doc, chain, x);
    hide HangsOff, Closed, NoneReady, Placed, NoneLost, Front, Holds, IsChain, Named, ChangeAt, DocIs;
    RunLands(doc, pending, lost, delivered, chain, pubkey, first, base, x + 1, front);
    NonePast(doc, chain, pubkey, first, front);
  }

  lemma NonePast(doc: set<Change>, chain: seq<Carrier>, pubkey: string, first: nat, front: nat)
    requires Closed(doc) && IsChain(chain, pubkey, first) && (front < |chain| ==> ChangeAt(chain, front) !in doc)
    requires front <= |chain| && forall i :: 0 <= i < front ==> ChangeAt(chain, i) in doc
    ensures DocIs(doc, chain, front)
  {
    hide Closed, IsChain;
    forall i | front <= i < |chain| ensures ChangeAt(chain, i) !in doc {
      NothingPast(doc, chain, pubkey, first, front, i);
    }
  }

  lemma BelowHasLanded(was: set<Change>, doc: set<Change>, chain: seq<Carrier>, x: nat)
    requires DocIs(was, chain, x) && x < |chain| && was + {ChangeAt(chain, x)} <= doc
    ensures forall i :: 0 <= i < x + 1 ==> ChangeAt(chain, i) in doc
  {
  }

  lemma LandedAreThere(lost: set<Change>, delivered: set<Change>, chain: seq<Carrier>, come: set<nat>, kept: set<nat>,
                       end: nat, x: nat, front: nat)
    requires NoneLost(lost, chain, come, kept, end) && kept <= come && front <= |chain|
    requires Named(chain, come + {x}) <= delivered && forall i :: x < i < front ==> i in kept
    ensures forall i :: x < i < front ==> ChangeAt(chain, i) in delivered - lost
  {
    forall i | x < i < front ensures ChangeAt(chain, i) in delivered - lost {
      assert i in come + {x} && ChangeAt(chain, i) in Named(chain, come + {x});
    }
  }

  lemma FrontLinkIsMissing(was: set<Change>, waited: map<Change, Pending>, doc: set<Change>, delivered: set<Change>,
                           chain: seq<Carrier>, pubkey: string, first: nat, come: set<nat>, kept: set<nat>, end: nat,
                           x: nat, front: nat)
    requires IsChain(chain, pubkey, first) && Placed(come, kept, |chain|, end) && DocIs(was, chain, x)
    requires doc <= delivered
    requires Holds(waited, chain, pubkey, kept) && forall h :: h in waited ==> waited[h].frame.pubkey == h.actor
    requires x < front <= |chain| && doc <= was + waited.Keys + {ChangeAt(chain, x)}
    requires front < |chain| ==> front == end || front !in come + {x}
    requires delivered !! (Named(chain, Stretch(0, |chain|)) - Named(chain, come + {x}))
    ensures front < |chain| ==> ChangeAt(chain, front) !in doc
  {
    hide Holds, IsChain, Named, Of;
    if front < |chain| {
      FrontIsMissing(doc, was, waited, chain, pubkey, first, delivered, come, kept, x, front);
    }
  }

  // What a landing leaves.
  lemma LandingFlows(was: set<Change>, waited: map<Change, Pending>, lost: set<Change>, doc: set<Change>,
                     pending: map<Change, Pending>, delivered: set<Change>, chain: seq<Carrier>, pubkey: string,
                     first: nat, base: set<Change>, come: set<nat>, kept: set<nat>, end: nat, x: nat)
    requires IsSettled(doc, pending, lost, delivered) && IsChain(chain, pubkey, first)
    requires HangsOff(chain, base) && base <= doc
    requires Flows(was, waited, lost, chain, pubkey, come, kept, end)
    requires forall h :: h in waited ==> waited[h].frame.pubkey == h.actor
    requires x !in come && x == Front(come, |chain|, end) < |chain| && ChangeAt(chain, x) !in lost
    requires was + {ChangeAt(chain, x)} <= doc <= was + waited.Keys + {ChangeAt(chain, x)}
    requires forall h :: h in pending ==> h in waited && pending[h] == waited[h]
    requires Named(chain, come + {x}) <= delivered
    requires delivered !! (Named(chain, Stretch(0, |chain|)) - Named(chain, come + {x}))
    ensures Flows(doc, pending, lost, chain, pubkey, come + {x}, Past(kept, Front(come + {x}, |chain|, end)), end)
  {
    var front := Front(come + {x}, |chain|, end);
    LandingPlaced(come, kept, |chain|, end, x);
    LandingDoc(was, waited, lost, doc, pending, delivered, chain, pubkey, first, base, come, kept, end, x);
    assert kept <= come;
    StillNoneLost(lost, chain, come, kept, end, x, front);
    hide Front, IsChain, HangsOff, Holds, Placed, Closed, NoneReady, NoneLost, DocIs;
    KeptWait(doc, pending, lost, delivered, chain, come, kept, end, x, front);
    StillHolds(waited, pending, chain, pubkey, kept, front);
    FewerWait(waited, pending, chain, pubkey, first, kept, front);
  }

  lemma StillNoneLost(lost: set<Change>, chain: seq<Carrier>, come: set<nat>, kept: set<nat>, end: nat, x: nat,
                      front: nat)
    requires NoneLost(lost, chain, come, kept, end) && x < |chain| && ChangeAt(chain, x) !in lost && kept <= come
    ensures NoneLost(lost, chain, come + {x}, Past(kept, front), end)
  {
  }

  lemma KeptWait(doc: set<Change>, pending: map<Change, Pending>, lost: set<Change>, delivered: set<Change>,
                 chain: seq<Carrier>, come: set<nat>, kept: set<nat>, end: nat, x: nat, front: nat)
    requires IsSettled(doc, pending, lost, delivered) && DocIs(doc, chain, front) && kept <= come
    requires NoneLost(lost, chain, come, kept, end) && Named(chain, come + {x}) <= delivered
    ensures forall i :: i in kept && i < |chain| ==> (ChangeAt(chain, i) in pending <==> front <= i)
  {
    hide Closed, NoneReady;
    forall i | i in kept && i < |chain| ensures ChangeAt(chain, i) in pending <==> front <= i {
      assert i in come + {x};
      assert ChangeAt(chain, i) in Named(chain, come + {x});
    }
  }

  // What an orphan leaves.
  lemma OrphanFlows(doc: set<Change>, before: map<Change, Pending>, lost: set<Change>, after: map<Change, Pending>,
                    lostNow: set<Change>, chain: seq<Carrier>, pubkey: string, first: nat, come: set<nat>,
                    kept: set<nat>, end: nat, x: nat, entry: Pending, gone: seq<string>, outcome: Ingested)
    returns (now: set<nat>, e: nat)
    requires IsChain(chain, pubkey, first) && Flows(doc, before, lost, chain, pubkey, come, kept, end)
    requires x !in come && Front(come, |chain|, end) < x < |chain|
    requires before.Keys !! doc && forall h :: h in before ==> before[h].change == h
    requires entry.frame == chain[x] && entry.change == ChangeAt(chain, x)
    requires entry.change !in before && entry.change !in lost && entry.change !in doc
    requires Buffers(before, after, entry, gone, outcome)
    requires lostNow <= lost + (before.Keys + {entry.change} - after.Keys)
    ensures Flows(doc, after, lostNow, chain, pubkey, come + {x}, now, e) && e <= end
    ensures Front(come + {x}, |chain|, e) == Front(come, |chain|, end)
    ensures Displaces(chain, kept, x, now, gone)
    ensures Wait(now, e) == Joined(Wait(kept, end), come, |chain|, x)
  {
    OnceEach(come, kept, x, |chain|, end);
    hide Buffers, IsChain, Displaces, Crowded, Front, Holds, Placed, NoneLost, DocIs, Joined;
    now := OrphanArrives(chain, pubkey, first, kept, x, before, after, entry, gone, outcome);
    DisplacesIs(chain, come, kept, end, x, now, gone);
    OrphanPlaced(come, kept, |chain|, end, x);
    e := Joined(Wait(kept, end), come, |chain|, x).end;
    NoneOfTheseLost(doc, before, lost, after, lostNow, chain, pubkey, come, kept, end, x, now, e);
  }

  lemma OnceEach(come: set<nat>, kept: set<nat>, x: nat, n: nat, end: nat)
    requires Placed(come, kept, n, end) && x !in come
    ensures x !in kept && |kept| <= PENDING_AUTHOR_MAX
  {
  }

  // An orphan's coming loses only what is given up for it.
  lemma NoneOfTheseLost(doc: set<Change>, before: map<Change, Pending>, lost: set<Change>, after: map<Change, Pending>,
                        lostNow: set<Change>, chain: seq<Carrier>, pubkey: string, come: set<nat>, kept: set<nat>,
                        end: nat, x: nat, now: set<nat>, e: nat)
    requires NoneLost(lost, chain, come, kept, end) && x < |chain| && ChangeAt(chain, x) !in lost + doc
    requires before.Keys !! doc && lostNow <= lost + (before.Keys + {ChangeAt(chain, x)} - after.Keys)
    requires Placed(come + {x}, now, |chain|, e) && DocIs(doc, chain, Front(come + {x}, |chain|, e)) && e <= end
    requires Holds(after, chain, pubkey, now) && now <= kept + {x}
    ensures NoneLost(lostNow, chain, come + {x}, now, e)
  {
    forall i | i in come + {x} && i < |chain| && (i < e || i in now) ensures ChangeAt(chain, i) !in lostNow {
      if i < Front(come + {x}, |chain|, e) {
        assert ChangeAt(chain, i) in doc;
      } else {
        assert i in now && ChangeAt(chain, i) in after;
      }
    }
  }

  // ---- A run ----

  // Each of these places once, in any order.
  ghost predicate IsOrderOf(order: seq<nat>, from: nat, end: nat) {
    && (forall k :: 0 <= k < |order| ==> from <= order[k] < end)
    && (forall k, l :: 0 <= k < l < |order| ==> order[k] != order[l])
    && forall i :: from <= i < end ==> i in order
  }

  // The newcomer is kept as well, or one place, perhaps its own, is given up and its key handed back.
  ghost predicate Replaced(chain: seq<Carrier>, kept: set<nat>, x: nat, now: set<nat>, gone: seq<string>) {
    if gone == [] then now == kept + {x}
    else exists y: nat :: y < |chain| && y in kept + {x} && now == kept + {x} - {y} && gone == [chain[y].dedupKey]
  }

  // The keys handed back are those of the places that came and were not kept.
  ghost predicate KeysOf(gone: seq<string>, chain: seq<Carrier>, arrived: set<nat>, kept: set<nat>)
  {
    && |gone| == |arrived| - |kept|
    && (forall key :: key in gone ==> exists i :: IsRest(chain, arrived, kept, i) && chain[i].dedupKey == key)
    && forall i :: IsRest(chain, arrived, kept, i) ==> chain[i].dedupKey in gone
  }

  ghost predicate IsRest(chain: seq<Carrier>, arrived: set<nat>, kept: set<nat>, i: int) {
    0 <= i < |chain| && i in arrived && i !in kept
  }

  lemma KeysGrow(gone: seq<string>, more: seq<string>, chain: seq<Carrier>, arrived: set<nat>, kept: set<nat>, x: nat,
                 now: set<nat>)
    requires x < |chain| && x !in arrived && kept <= arrived
    requires KeysOf(gone, chain, arrived, kept) && Replaced(chain, kept, x, now, more)
    ensures KeysOf(gone + more, chain, arrived + {x}, now) && now <= arrived + {x}
  {
  }

  // The places whose links have landed or wait.
  ghost function Safe(come: set<nat>, kept: set<nat>, n: nat, end: nat): set<nat> {
    kept + Stretch(0, Front(come, n, end))
  }

  lemma LandingReplaces(chain: seq<Carrier>, come: set<nat>, kept: set<nat>, end: nat, x: nat)
    requires Placed(come, kept, |chain|, end) && x !in come && x == Front(come, |chain|, end) < |chain|
    ensures var front := Front(come + {x}, |chain|, end);
            && Replaced(chain, Safe(come, kept, |chain|, end), x, Safe(come + {x}, Past(kept, front), |chain|, end), [])
            && end <= |chain|
  {
    var front := Front(come + {x}, |chain|, end);
    LandingPlaced(come, kept, |chain|, end, x);
    assert x !in kept && forall i :: i in kept ==> x <= i;
    hide Placed, Front;
    PastAndBelow(kept, x, front);
  }

  lemma PastAndBelow(kept: set<nat>, x: nat, front: nat)
    requires x < front && x !in kept && (forall i :: i in kept ==> x <= i) && forall i :: x < i < front ==> i in kept
    ensures Past(kept, front) + Stretch(0, front) == kept + Stretch(0, x) + {x}
  {
  }

  lemma OrphanReplaces(chain: seq<Carrier>, come: set<nat>, kept: set<nat>, end: nat, x: nat, now: set<nat>, e: nat,
                       more: seq<string>)
    requires Placed(come, kept, |chain|, end) && Displaces(chain, kept, x, now, more)
    requires Front(come + {x}, |chain|, e) == Front(come, |chain|, end) < x
    ensures Replaced(chain, Safe(come, kept, |chain|, end), x, Safe(come + {x}, now, |chain|, e), more)
  {
    var below := Stretch(0, Front(come, |chain|, end));
    assert forall i :: i in kept ==> i !in below;
    hide Placed, Front, Stretch;
    if |kept| < PENDING_AUTHOR_MAX {
      assert kept + {x} + below == kept + below + {x};
    } else {
      var y: nat :| IsTop(kept + {x}, y) && y < |chain| && now == kept + {x} - {y} && more == [chain[y].dedupKey];
      assert y !in below;
      Around(kept, below, x, y);
    }
  }

  lemma Around(kept: set<nat>, below: set<nat>, x: nat, y: nat)
    requires y !in below
    ensures kept + {x} - {y} + below == kept + below + {x} - {y}
  {
  }

  lemma NamedOneMore(chain: seq<Carrier>, places: set<nat>, x: nat)
    requires x < |chain|
    ensures Named(chain, places + {x}) == Named(chain, places) + {ChangeAt(chain, x)}
  {
  }

  // What has not come has not been delivered.
  lemma RestIsElsewhere(chain: seq<Carrier>, pubkey: string, first: nat, before: set<Change>, come: set<nat>, x: nat)
    requires IsChain(chain, pubkey, first) && NoneSeen(chain, before)
    ensures var delivered := before + Named(chain, come);
            && delivered !! (Named(chain, Stretch(0, |chain|)) - Named(chain, come))
            && (x < |chain| && x !in come ==> ChangeAt(chain, x) !in delivered)
  {
    forall i | 0 <= i < |chain| && i !in come ensures ChangeAt(chain, i) !in before + Named(chain, come) {
      PlacesDiffer(chain, pubkey, first, come, i);
    }
  }

  // A link is ready exactly if it is the one at the front.
  lemma LinkToCome(doc: set<Change>, pending: map<Change, Pending>, lost: set<Change>, delivered: set<Change>,
                   chain: seq<Carrier>, pubkey: string, first: nat, base: set<Change>, before: set<Change>,
                   come: set<nat>, kept: set<nat>, end: nat, x: nat)
    requires IsSettled(doc, pending, lost, delivered) && IsChain(chain, pubkey, first) && NoneSeen(chain, before)
    requires HangsOff(chain, base) && base <= doc && x < |chain| && x !in come
    requires Flows(doc, pending, lost, chain, pubkey, come, kept, end) && delivered == before + Named(chain, come)
    ensures IsHonest(chain[x]) && ChangeAt(chain, x) !in doc + pending.Keys + lost
    ensures forall h :: h in pending ==> pending[h].change == h && pending[h].frame.pubkey == h.actor
    ensures Placed(come, kept, |chain|, end) && Front(come, |chain|, end) <= x && pending.Keys !! doc
    ensures Ready(doc, ChangeAt(chain, x)) <==> x == Front(come, |chain|, end)
    ensures Unrepeated(delivered + {ChangeAt(chain, x)}) ==> !Repeats(doc, ChangeAt(chain, x))
  {
    RestIsElsewhere(chain, pubkey, first, before, come, x);
    var front := Front(come, |chain|, end);
    assert LinkHangsOff(chain, x, base) && HangsOn(chain, x);
    assert x > 0 ==> (ChangeAt(chain, x - 1) in doc <==> x - 1 < front);
  }

  // One link of the chain is taken in: with what waited for it, or to wait.
  method IngestLink(mesh: MeshDoc, chain: seq<Carrier>, ghost pubkey: string, ghost first: nat, x: nat)
    returns (ghost entry: Pending, ghost outcome: Ingested, ghost more: seq<string>)
    requires mesh.Valid() && mesh.gate == None && x < |chain| && IsHonest(chain[x])
    requires ChangeAt(chain, x) !in mesh.doc && Unrepeated(mesh.delivered + {ChangeAt(chain, x)})
    requires !Repeats(mesh.doc, ChangeAt(chain, x))
    modifies mesh
    ensures mesh.Valid() && mesh.dropped == old(mesh.dropped) + more && old(mesh.doc) <= mesh.doc
    ensures mesh.delivered == old(mesh.delivered) + {ChangeAt(chain, x)}
    ensures var c := ChangeAt(chain, x);
            if Ready(old(mesh.doc), c) then
              && c in mesh.doc && mesh.doc <= old(mesh.doc) + old(mesh.pending).Keys + {c}
              && (forall h :: h in mesh.pending ==> h in old(mesh.pending) && mesh.pending[h] == old(mesh.pending)[h])
              && mesh.lost == old(mesh.lost) && more == []
            else
              && mesh.doc == old(mesh.doc) && entry.frame == chain[x] && entry.change == c
              && mesh.lost <= old(mesh.lost) + (old(mesh.pending).Keys + {c} - mesh.pending.Keys)
              && Buffers(old(mesh.pending), mesh.pending, entry, more, outcome)
  {
    hide Buffers, Forges, Repeats, Ready, MeshDoc.Valid, Unrepeated, LostRightly;
    mesh.UngatedRejectsNothing(ChangeAt(chain, x), chain[x].author);
    entry := Pending(chain[x], ChangeAt(chain, x), mesh.pendingArrivals + 1);
    outcome, more := mesh.Ingest(chain[x]);
    assert mesh.delivered + Genesis(mesh.gate) == old(mesh.delivered) + {ChangeAt(chain, x)};
  }

  // How far the chain has come, in a mesh that is as it should be.
  ghost predicate Underway(mesh: MeshDoc, chain: seq<Carrier>, pubkey: string, first: nat, base: set<Change>,
                           before: set<Change>, come: set<nat>, kept: set<nat>, end: nat)
    reads mesh
  {
    && mesh.Valid() && mesh.gate == None && base <= mesh.doc && mesh.delivered == before + Named(chain, come)
    && IsChain(chain, pubkey, first) && HangsOff(chain, base) && NoneSeen(chain, before)
    && Flows(mesh.doc, mesh.pending, mesh.lost, chain, pubkey, come, kept, end)
  }

  lemma UnderwayIs(mesh: MeshDoc, chain: seq<Carrier>, pubkey: string, first: nat, base: set<Change>,
                   before: set<Change>, come: set<nat>, kept: set<nat>, end: nat, x: nat)
    requires Underway(mesh, chain, pubkey, first, base, before, come, kept, end) && x < |chain| && x !in come
    ensures IsHonest(chain[x]) && ChangeAt(chain, x) !in mesh.doc + mesh.pending.Keys + mesh.lost
    ensures forall h :: h in mesh.pending ==> mesh.pending[h].change == h && mesh.pending[h].frame.pubkey == h.actor
    ensures Placed(come, kept, |chain|, end) && Front(come, |chain|, end) <= x && mesh.pending.Keys !! mesh.doc
    ensures Ready(mesh.doc, ChangeAt(chain, x)) <==> x == Front(come, |chain|, end)
    ensures Unrepeated(mesh.delivered + {ChangeAt(chain, x)}) ==> !Repeats(mesh.doc, ChangeAt(chain, x))
  {
    mesh.AllAccountedFor();
    hide MeshDoc.Valid, IsSettled, Flows, IsChain, HangsOff, NoneSeen;
    LinkToCome(mesh.doc, mesh.pending, mesh.lost, mesh.delivered, chain, pubkey, first, base, before, come, kept, end, x);
  }

  lemma LandingStep(mesh: MeshDoc, was: set<Change>, waited: map<Change, Pending>, chain: seq<Carrier>, pubkey: string,
                    first: nat, base: set<Change>, before: set<Change>, come: set<nat>, kept: set<nat>, end: nat,
                   x: nat)
    requires mesh.Valid() && mesh.gate == None && base <= was && mesh.delivered == before + Named(chain, come + {x})
    requires IsChain(chain, pubkey, first) && HangsOff(chain, base) && NoneSeen(chain, before)
    requires Flows(was, waited, mesh.lost, chain, pubkey, come, kept, end)
    requires forall h :: h in waited ==> waited[h].frame.pubkey == h.actor
    requires x !in come && x == Front(come, |chain|, end) < |chain| && ChangeAt(chain, x) !in mesh.lost
    requires was + {ChangeAt(chain, x)} <= mesh.doc <= was + waited.Keys + {ChangeAt(chain, x)}
    requires forall h :: h in mesh.pending ==> h in waited && mesh.pending[h] == waited[h]
    ensures var now := Past(kept, Front(come + {x}, |chain|, end));
            && Underway(mesh, chain, pubkey, first, base, before, come + {x}, now, end)
            && Placed(come, kept, |chain|, end)
            && Replaced(chain, Safe(come, kept, |chain|, end), x, Safe(come + {x}, now, |chain|, end), [])
  {
    mesh.AllAccountedFor();
    assert Placed(come, kept, |chain|, end);
    hide MeshDoc.Valid, IsSettled, Flows, IsChain, HangsOff, NoneSeen, Front, Safe, Replaced, Named, Placed;
    RestIsElsewhere(chain, pubkey, first, before, come + {x}, x);
    LandingFlows(was, waited, mesh.lost, mesh.doc, mesh.pending, mesh.delivered, chain, pubkey, first, base, come, kept,
                 end, x);
    LandingReplaces(chain, come, kept, end, x);
  }

  lemma LandingIs(come: set<nat>, kept: set<nat>, n: nat, end: nat, x: nat)
    requires x == Front(come, n, end)
    ensures Wait(Past(kept, Front(come + {x}, n, end)), end) == Joined(Wait(kept, end), come, n, x)
  {
    hide Front;
  }

  // One link of the chain comes: it lands, with what waited for it, or joins the wait, or is one too many.
  method ReceiveOne(mesh: MeshDoc, chain: seq<Carrier>, ghost pubkey: string, ghost first: nat, ghost base: set<Change>,
                    ghost before: set<Change>, x: nat, ghost come: set<nat>, ghost kept: set<nat>, ghost end: nat)
    returns (ghost now: set<nat>, ghost e: nat, ghost more: seq<string>)
    requires Underway(mesh, chain, pubkey, first, base, before, come, kept, end) && x < |chain| && x !in come
    requires Unrepeated(mesh.delivered + {ChangeAt(chain, x)})
    modifies mesh
    ensures Underway(mesh, chain, pubkey, first, base, before, come + {x}, now, e)
    ensures mesh.dropped == old(mesh.dropped) + more
    ensures Wait(now, e) == Joined(Wait(kept, end), come, |chain|, x)
    ensures Replaced(chain, Safe(come, kept, |chain|, end), x, Safe(come + {x}, now, |chain|, e), more)
  {
    hide Buffers, Flows, Repeats, Ready, IsChain, HangsOff, NoneSeen, MeshDoc.Valid, Unrepeated, Front, Safe,
        Replaced, Named, Crowded, Joined;
    UnderwayIs(mesh, chain, pubkey, first, base, before, come, kept, end, x);
    ghost var was, waited, lost := mesh.doc, mesh.pending, mesh.lost;
    NamedOneMore(chain, come, x);
    ghost var entry, outcome;
    entry, outcome, more := IngestLink(mesh, chain, pubkey, first, x);
    if x == Front(come, |chain|, end) {
      now, e := Past(kept, Front(come + {x}, |chain|, end)), end;
      LandingIs(come, kept, |chain|, end, x);
      LandingStep(mesh, was, waited, chain, pubkey, first, base, before, come, kept, end, x);
    } else {
      now, e := OrphanFlows(was, waited, lost, mesh.pending, mesh.lost, chain, pubkey, first, come, kept, end, x, entry,
                            more, outcome);
      OrphanReplaces(chain, come, kept, end, x, now, e, more);
    }
  }

  // The places that have come after so many arrivals.
  ghost function Come(order: seq<nat>, k: nat): set<nat>
    requires k <= |order|
  {
    set i | i in order[..k]
  }

  lemma ComeOneMore(order: seq<nat>, k: nat, n: nat)
    requires k < |order| && IsOrderOf(order, 0, n)
    ensures Come(order, k + 1) == Come(order, k) + {order[k]} && order[k] !in Come(order, k) && order[k] < n
  {
    assert order[..k + 1] == order[..k] + [order[k]];
  }

  ghost predicate CrowdedAt(order: seq<nat>, j: nat, n: nat, y: nat)
    requires j <= |order|
  {
    Crowded(Come(order, j), n, y)
  }

  // At some time the place had come, and as many as an author may have waiting between it and the first gap.
  ghost predicate CrowdedOut(order: seq<nat>, n: nat, y: nat) {
    exists j :: 0 <= j <= |order| && CrowdedAt(order, j, n, y)
  }

  // Neither the place nor any below it is ever crowded out.
  ghost predicate Lands(order: seq<nat>, n: nat, i: nat) {
    forall y :: 0 <= y <= i ==> !CrowdedOut(order, n, y)
  }

  // The lowest place that has been crowded out by now.
  ghost predicate EndSoFar(order: seq<nat>, k: nat, n: nat, end: nat) {
    && k <= |order| && end <= n
    && (forall j, y :: 0 <= j <= k && 0 <= y < end ==> !CrowdedAt(order, j, n, y))
    && (end < n ==> exists j :: 0 <= j <= k && CrowdedAt(order, j, n, end))
  }

  // What waits after so many arrivals: the lowest places, as long as an author's share has room.
  ghost function WaitAt(order: seq<nat>, k: nat, n: nat): Wait
    requires k <= |order|
  {
    if k == 0 then Wait({}, n) else Joined(WaitAt(order, k - 1, n), Come(order, k - 1), n, order[k - 1])
  }

  lemma EndStep(order: seq<nat>, k: nat, n: nat, end: nat, kept: set<nat>, e: nat)
    requires EndSoFar(order, k, n, end) && k < |order| && e <= end
    requires Placed(Come(order, k + 1), kept, n, e) && (e < end ==> CrowdedAt(order, k + 1, n, e))
    ensures EndSoFar(order, k + 1, n, e)
  {
    forall j, y | 0 <= j <= k + 1 && 0 <= y < e ensures !CrowdedAt(order, j, n, y) {
      if j == k + 1 {
        NoneCrowded(Come(order, k + 1), kept, n, e, y);
      }
    }
  }

  // What waits is where it should be, and the first to have been given up is the lowest crowded out.
  lemma {:induction false} WaitingSoFar(order: seq<nat>, k: nat, n: nat)
    requires IsOrderOf(order, 0, n) && k <= |order|
    ensures var w := WaitAt(order, k, n); Placed(Come(order, k), w.kept, n, w.end) && EndSoFar(order, k, n, w.end)
    decreases k
  {
    hide IsOrderOf, Come, Joined, Placed, EndSoFar, WaitAt;
    if k == 0 {
      NothingHasCome(order, n);
    } else {
      WaitingSoFar(order, k - 1, n);
      ComeOneMore(order, k - 1, n);
      WaitingStep(order, k - 1, n, WaitAt(order, k - 1, n));
      WaitingOneMore(order, k - 1, n);
    }
  }

  lemma WaitingOneMore(order: seq<nat>, k: nat, n: nat)
    requires k < |order|
    ensures WaitAt(order, k + 1, n) == Joined(WaitAt(order, k, n), Come(order, k), n, order[k])
  {
  }

  lemma WaitingStep(order: seq<nat>, k: nat, n: nat, was: Wait)
    requires k < |order| && Placed(Come(order, k), was.kept, n, was.end) && EndSoFar(order, k, n, was.end)
    requires Come(order, k + 1) == Come(order, k) + {order[k]} && order[k] !in Come(order, k) && order[k] < n
    ensures var w := Joined(was, Come(order, k), n, order[k]);
            Placed(Come(order, k + 1), w.kept, n, w.end) && EndSoFar(order, k + 1, n, w.end)
  {
    var come, x := Come(order, k), order[k];
    var w := Joined(was, come, n, x);
    FrontOrPast(come, was.kept, n, was.end, x);
    hide Come, Placed, EndSoFar, Crowded, Front;
    if x == Front(come, n, was.end) {
      LandingPlaced(come, was.kept, n, was.end, x);
    } else {
      hide Joined;
      OrphanPlaced(come, was.kept, n, was.end, x);
    }
    EndStep(order, k, n, was.end, w.kept, w.end);
  }

  // What comes is not below what has landed.
  lemma FrontOrPast(come: set<nat>, kept: set<nat>, n: nat, end: nat, x: nat)
    requires Placed(come, kept, n, end) && x !in come
    ensures Front(come, n, end) <= x
  {
  }

  lemma NothingHasCome(order: seq<nat>, n: nat)
    ensures Come(order, 0) == {} && WaitAt(order, 0, n) == Wait({}, n)
    ensures Placed({}, {}, n, n) && EndSoFar(order, 0, n, n)
  {
  }

  lemma AllHasCome(order: seq<nat>, n: nat)
    requires IsOrderOf(order, 0, n)
    ensures Come(order, |order|) == Stretch(0, n) && Gap(Come(order, |order|), n) == n
  {
    assert order[..|order|] == order;
    GapIs(Stretch(0, n), n, n);
  }

  lemma EndIsLowest(order: seq<nat>, n: nat, end: nat)
    requires EndSoFar(order, |order|, n, end)
    ensures forall i :: 0 <= i < n ==> (i < end <==> Lands(order, n, i))
  {
    hide CrowdedAt;
    if end < n {
      assert CrowdedOut(order, n, end);
    }
  }

  // The places whose links are in the document or wait.
  ghost function Held(chain: seq<Carrier>, doc: set<Change>, pending: map<Change, Pending>): set<nat> {
    set i: nat | i < |chain| && (ChangeAt(chain, i) in doc || ChangeAt(chain, i) in pending)
  }

  lemma SafeIsHeld(doc: set<Change>, pending: map<Change, Pending>, lost: set<Change>, chain: seq<Carrier>,
                   pubkey: string, first: nat, come: set<nat>, kept: set<nat>, end: nat)
    requires Flows(doc, pending, lost, chain, pubkey, come, kept, end) && IsChain(chain, pubkey, first)
    requires forall h :: h in pending ==> pending[h].frame.pubkey == h.actor
    ensures Safe(come, kept, |chain|, end) == Held(chain, doc, pending)
  {
    hide IsChain, Front, Holds, NoneLost, DocIs, Held;
    forall i: nat | i < |chain| ensures ChangeAt(chain, i) in pending <==> i in kept {
      WaitsIfKept(pending, chain, pubkey, first, kept, i);
    }
    FrontInChain(come, |chain|, end);
    HeldIs(doc, pending, chain, kept, Front(come, |chain|, end));
  }

  lemma FrontInChain(come: set<nat>, n: nat, end: nat)
    requires end <= n
    ensures Front(come, n, end) <= n
  {
  }

  lemma HeldIs(doc: set<Change>, pending: map<Change, Pending>, chain: seq<Carrier>, kept: set<nat>, front: nat)
    requires DocIs(doc, chain, front) && front <= |chain| && forall i :: i in kept ==> i < |chain|
    requires forall i: nat :: i < |chain| ==> (ChangeAt(chain, i) in pending <==> i in kept)
    ensures kept + Stretch(0, front) == Held(chain, doc, pending)
  {
    forall i: nat ensures i in Held(chain, doc, pending) <==> i in kept + Stretch(0, front) {
      if i < |chain| {
        assert ChangeAt(chain, i) in doc <==> i < front;
      }
    }
  }

  lemma WaitsIfKept(pending: map<Change, Pending>, chain: seq<Carrier>, pubkey: string, first: nat, kept: set<nat>,
                    i: nat)
    requires Holds(pending, chain, pubkey, kept) && IsChain(chain, pubkey, first) && i < |chain|
    requires forall h :: h in pending ==> pending[h].frame.pubkey == h.actor
    ensures ChangeAt(chain, i) in pending <==> i in kept
  {
    assert ChangeAt(chain, i) in pending <==> ChangeAt(chain, i) in Of(pending, pubkey);
    if i !in kept {
      PlacesDiffer(chain, pubkey, first, kept, i);
    }
  }

  lemma NotTwice(chain: seq<Carrier>, before: set<Change>, delivered: set<Change>, come: set<nat>, x: nat)
    requires Unrepeated(before + Named(chain, Stretch(0, |chain|))) && delivered == before + Named(chain, come)
    requires x < |chain|
    ensures Unrepeated(delivered + {ChangeAt(chain, x)})
  {
    assert delivered + {ChangeAt(chain, x)} <= before + Named(chain, Stretch(0, |chain|));
  }

  lemma Regroup<T>(a: seq<T>, b: seq<T>, c: seq<T>)
    ensures a + b + c == a + (b + c)
  {
  }

  // The keys handed back so far are those of the places that are nowhere.
  ghost predicate SafeKeys(gone: seq<string>, chain: seq<Carrier>, come: set<nat>, kept: set<nat>, end: nat) {
    var safe := Safe(come, kept, |chain|, end);
    safe <= come && KeysOf(gone, chain, come, safe)
  }

  lemma SafeStep(gone: seq<string>, more: seq<string>, chain: seq<Carrier>, come: set<nat>, kept: set<nat>, end: nat,
                 x: nat, now: set<nat>, e: nat)
    requires SafeKeys(gone, chain, come, kept, end) && x < |chain| && x !in come
    requires Replaced(chain, Safe(come, kept, |chain|, end), x, Safe(come + {x}, now, |chain|, e), more)
    ensures SafeKeys(gone + more, chain, come + {x}, now, e)
  {
    hide KeysOf, Replaced, Safe;
    KeysGrow(gone, more, chain, come, Safe(come, kept, |chain|, end), x, Safe(come + {x}, now, |chain|, e));
  }

  lemma DeliveredIs(mesh: MeshDoc, chain: seq<Carrier>, pubkey: string, first: nat, base: set<Change>,
                    before: set<Change>, come: set<nat>, kept: set<nat>, end: nat)
    requires Underway(mesh, chain, pubkey, first, base, before, come, kept, end)
    ensures mesh.Valid() && mesh.delivered == before + Named(chain, come) && Placed(come, kept, |chain|, end)
  {
    hide MeshDoc.Valid, IsChain, HangsOff, NoneSeen, Named;
  }

  lemma StartsUnderway(mesh: MeshDoc, chain: seq<Carrier>, pubkey: string, first: nat)
    requires mesh.Valid() && mesh.gate == None && IsChain(chain, pubkey, first)
    requires NoneSeen(chain, mesh.delivered) && HangsOff(chain, mesh.doc)
    requires Of(mesh.pending, pubkey) == {} && |mesh.pending| + PENDING_AUTHOR_MAX <= PENDING_TOTAL_MAX
    ensures Underway(mesh, chain, pubkey, first, mesh.doc, mesh.delivered, {}, {}, |chain|)
    ensures SafeKeys([], chain, {}, {}, |chain|)
  {
    mesh.AllDelivered({});
    hide MeshDoc.Valid, IsChain, HangsOff, Flows, SafeKeys;
    StartsToFlow(mesh.doc, mesh.pending, mesh.lost, mesh.delivered, chain, pubkey);
    assert mesh.delivered == mesh.delivered + Named(chain, {});
  }

  lemma StartsToFlow(doc: set<Change>, pending: map<Change, Pending>, lost: set<Change>, delivered: set<Change>,
                     chain: seq<Carrier>, pubkey: string)
    requires NoneSeen(chain, delivered) && doc <= delivered
    requires Of(pending, pubkey) == {} && |pending| + PENDING_AUTHOR_MAX <= PENDING_TOTAL_MAX
    ensures Flows(doc, pending, lost, chain, pubkey, {}, {}, |chain|) && SafeKeys([], chain, {}, {}, |chain|)
  {
    assert Front({}, |chain|, |chain|) == 0;
    assert Safe({}, {}, |chain|, |chain|) == {};
    assert Named(chain, {}) == {};
  }

  // Once every link has come.
  lemma AllLanded(mesh: MeshDoc, chain: seq<Carrier>, pubkey: string, first: nat, base: set<Change>,
                  before: set<Change>, kept: set<nat>, end: nat, come: set<nat>, gone: seq<string>)
    requires Underway(mesh, chain, pubkey, first, base, before, come, kept, end)
    requires SafeKeys(gone, chain, come, kept, end) && Gap(come, |chain|) == |chain|
    ensures mesh.Valid() && end <= |chain|
    ensures forall i :: 0 <= i < |chain| ==> (ChangeAt(chain, i) in mesh.doc <==> i < end)
    ensures forall i :: 0 <= i < |chain| ==> (ChangeAt(chain, i) in mesh.pending <==> i in kept)
    ensures KeysOf(gone, chain, come, Held(chain, mesh.doc, mesh.pending))
  {
    mesh.AllAccountedFor();
    hide MeshDoc.Valid, HangsOff, NoneSeen, KeysOf, Safe, Held, IsChain, Holds;
    forall i: nat | i < |chain| ensures ChangeAt(chain, i) in mesh.pending <==> i in kept {
      WaitsIfKept(mesh.pending, chain, pubkey, first, kept, i);
    }
    SafeIsHeld(mesh.doc, mesh.pending, mesh.lost, chain, pubkey, first, come, kept, end);
  }

  // A chain that comes in any order, each link once: exactly the links land below which no place is ever
  // crowded out, and the keys of exactly those that neither landed nor wait are handed back, to be asked
  // for again.
  method Backfilled(mesh: MeshDoc, chain: seq<Carrier>, ghost pubkey: string, ghost first: nat, order: seq<nat>)
    returns (ghost gone: seq<string>)
    requires mesh.Valid() && mesh.gate == None && IsChain(chain, pubkey, first)
    requires NoneSeen(chain, mesh.delivered) && HangsOff(chain, mesh.doc) && IsOrderOf(order, 0, |chain|)
    requires Of(mesh.pending, pubkey) == {} && |mesh.pending| + PENDING_AUTHOR_MAX <= PENDING_TOTAL_MAX
    requires Unrepeated(mesh.delivered + Named(chain, Stretch(0, |chain|)))
    modifies mesh
    ensures mesh.Valid() && mesh.dropped == old(mesh.dropped) + gone
    ensures forall i :: 0 <= i < |chain| ==> (ChangeAt(chain, i) in mesh.doc <==> Lands(order, |chain|, i))
    ensures forall i :: 0 <= i < |chain| ==>
              (ChangeAt(chain, i) in mesh.pending <==> i in WaitAt(order, |order|, |chain|).kept)
    ensures KeysOf(gone, chain, Stretch(0, |chain|), Held(chain, mesh.doc, mesh.pending))
  {
    hide IsChain, HangsOff, NoneSeen, Underway, KeysOf, Unrepeated, Named, Of, Stretch, Replaced, Safe, Crowded,
        Come, IsOrderOf, EndSoFar, MeshDoc.Valid, CrowdedOut, Flows, Held, Joined, Placed, Lands;
    ghost var base, before, n := mesh.doc, mesh.delivered, |chain|;
    ghost var kept: set<nat>, end: nat := {}, n;
    gone := [];
    NothingHasCome(order, n);
    StartsUnderway(mesh, chain, pubkey, first);
    for k := 0 to |order|
      invariant Underway(mesh, chain, pubkey, first, base, before, Come(order, k), kept, end)
      invariant mesh.dropped == old(mesh.dropped) + gone && Wait(kept, end) == WaitAt(order, k, n)
      invariant SafeKeys(gone, chain, Come(order, k), kept, end)
    {
      ComeOneMore(order, k, n);
      DeliveredIs(mesh, chain, pubkey, first, base, before, Come(order, k), kept, end);
      NotTwice(chain, before, mesh.delivered, Come(order, k), order[k]);
      ghost var now, e, more := ReceiveOne(mesh, chain, pubkey, first, base, before, order[k], Come(order, k), kept, end);
      SafeStep(gone, more, chain, Come(order, k), kept, end, order[k], now, e);
      Regroup(old(mesh.dropped), gone, more);
      kept, end, gone := now, e, gone + more;
    }
    AllHasCome(order, n);
    WaitingSoFar(order, |order|, n);
    EndIsLowest(order, n, end);
    AllLanded(mesh, chain, pubkey, first, base, before, kept, end, Come(order, |order|), gone);
  }

  // ---- When nothing is left waiting ----

  // Whatever comes after the first link of the chain lands.
  ghost predicate LateOnesLand(order: seq<nat>, n: nat) {
    forall k :: 0 <= k < |order| && 0 in Come(order, k) ==> Lands(order, n, order[k])
  }

  // All that waits is below the first place given up; nothing has been given up while there was room.
  ghost predicate Low(come: set<nat>, w: Wait, n: nat) {
    && (forall i :: i in w.kept ==> i < w.end)
    && (0 !in come && w.end < n ==> |w.kept| == PENDING_AUTHOR_MAX)
  }

  lemma {:induction false} WaitingLow(order: seq<nat>, k: nat, n: nat)
    requires IsOrderOf(order, 0, n) && LateOnesLand(order, n) && k <= |order|
    ensures Low(Come(order, k), WaitAt(order, k, n), n)
    decreases k
  {
    hide IsOrderOf, LateOnesLand, Come, Joined, Lands, EndSoFar, WaitAt, Placed, Low;
    if k == 0 {
      NothingLow(order, n);
    } else {
      var w, come, x := WaitAt(order, k - 1, n), Come(order, k - 1), order[k - 1];
      WaitingLow(order, k - 1, n);
      WaitingSoFar(order, k - 1, n);
      ComeOneMore(order, k - 1, n);
      WaitingOneMore(order, k - 1, n);
      LateOneIsBelow(order, k - 1, n, w.end);
      LowStep(come, w, n, x);
    }
  }

  lemma NothingLow(order: seq<nat>, n: nat)
    ensures Low(Come(order, 0), WaitAt(order, 0, n), n)
  {
  }

  lemma LateOneIsBelow(order: seq<nat>, k: nat, n: nat, end: nat)
    requires LateOnesLand(order, n) && k < |order| && order[k] < n && EndSoFar(order, k, n, end)
    ensures 0 in Come(order, k) ==> order[k] < end
  {
    hide EndSoFar, Lands, Come;
    if 0 in Come(order, k) {
      LandsBelowEnd(order, k, n, end, order[k]);
    }
  }

  // What lands is below whatever has been given up.
  lemma LandsBelowEnd(order: seq<nat>, k: nat, n: nat, end: nat, x: nat)
    requires EndSoFar(order, k, n, end) && x < n && Lands(order, n, x)
    ensures x < end
  {
    hide CrowdedAt;
    if end < n {
      assert CrowdedOut(order, n, end);
    }
  }

  lemma LowStep(come: set<nat>, w: Wait, n: nat, x: nat)
    requires Placed(come, w.kept, n, w.end) && Low(come, w, n) && x !in come && x < n
    requires 0 in come ==> x < w.end
    ensures Low(come + {x}, Joined(w, come, n, x), n)
  {
    hide Front;
    FrontIsFirst(come, n, w.end);
    if x != Front(come, n, w.end) && |w.kept| == PENDING_AUTHOR_MAX {
      var y := Highest(w.kept + {x});
      assert y in w.kept + {x};
      if x >= w.end {
        assert y == x && w.kept + {x} - {y} == w.kept;
      } else {
        assert |w.kept + {x} - {y}| == |w.kept|;
      }
    }
  }

  // Until the first link has come nothing has landed.
  lemma FrontIsFirst(come: set<nat>, n: nat, end: nat)
    ensures 0 !in come ==> Front(come, n, end) == 0
  {
  }

  // Then, once everything has come, nothing waits any longer.
  lemma NothingLeftWaiting(order: seq<nat>, n: nat)
    requires IsOrderOf(order, 0, n) && LateOnesLand(order, n)
    ensures WaitAt(order, |order|, n).kept == {}
  {
    WaitingLow(order, |order|, n);
    WaitingSoFar(order, |order|, n);
    AllHasCome(order, n);
  }

  // ---- The tail first ----

  // First the places from `r` on, in any order, then those below, in any order.
  ghost predicate TailFirst(order: seq<nat>, n: nat, r: nat) {
    && |order| == n && IsOrderOf(order, 0, n) && 1 <= r <= n
    && forall k :: 0 <= k < n ==> (order[k] >= r <==> k < n - r)
  }

  // The links of the head that wait after so many arrivals.
  ghost function HeadWaiting(order: seq<nat>, j: nat, n: nat, r: nat): set<nat>
    requires j <= |order|
  {
    set i | i in Come(order, j) && Gap(Come(order, j), n) < i < r
  }

  // The most of them that ever wait at once.
  ghost predicate MostAtOnce(order: seq<nat>, n: nat, r: nat, m: nat) {
    && (forall j :: 0 <= j <= |order| ==> |HeadWaiting(order, j, n, r)| <= m)
    && exists j :: 0 <= j <= |order| && |HeadWaiting(order, j, n, r)| == m
  }

  // After so many arrivals the whole tail has come, or nothing of the head.
  lemma TailThenHead(order: seq<nat>, n: nat, r: nat, j: nat)
    requires TailFirst(order, n, r) && j <= n
    ensures j >= n - r ==> forall i :: r <= i < n ==> i in Come(order, j)
    ensures j <= n - r ==> forall i :: i in Come(order, j) ==> i >= r
    ensures forall i :: i in Come(order, j) ==> i < n
  {
    if j >= n - r {
      forall i | r <= i < n ensures i in Come(order, j) {
        assert i in order;
        var k :| 0 <= k < n && order[k] == i;
        assert order[..j][k] == i;
      }
    }
  }

  lemma NoneCrowdedFirst(order: seq<nat>, n: nat, r: nat, m: nat, j: nat, y: nat)
    requires TailFirst(order, n, r) && j <= n && m <= PENDING_AUTHOR_MAX && |HeadWaiting(order, j, n, r)| <= m
    requires y < n && y < r + PENDING_AUTHOR_MAX - m
    ensures !CrowdedAt(order, j, n, y)
  {
    var come := Come(order, j);
    var between, head := Between(come, n, y), HeadWaiting(order, j, n, r);
    TailThenHead(order, n, r, j);
    if y in come {
      if Gap(come, n) >= r {
        assert 0 in come;
        GapIs(come, n, n);
        assert between == {};
      } else if y >= r {
        assert between <= head + Stretch(r, y);
        PartIsSmaller(between, head + Stretch(r, y));
      } else if Gap(come, n) < y {
        assert between + {y} <= head;
        PartIsSmaller(between + {y}, head);
      } else {
        assert between == {};
      }
    }
  }

  lemma CrowdedWhenMostWait(order: seq<nat>, n: nat, r: nat, m: nat, j: nat)
    requires TailFirst(order, n, r) && n - r <= j <= n && m <= PENDING_AUTHOR_MAX
    requires |HeadWaiting(order, j, n, r)| == m && Gap(Come(order, j), n) < r && r + PENDING_AUTHOR_MAX - m < n
    ensures CrowdedAt(order, j, n, r + PENDING_AUTHOR_MAX - m)
  {
    TailThenHead(order, n, r, j);
    hide TailFirst, Gap;
    SplitAt(Come(order, j), Gap(Come(order, j), n), r, r + PENDING_AUTHOR_MAX - m);
  }

  lemma SplitAt(come: set<nat>, gap: nat, r: nat, end: nat)
    requires gap < r <= end && forall i :: r <= i < end ==> i in come
    ensures |set i | i in come && gap < i < end| == |set i | i in come && gap < i < r| + (end - r)
  {
    var all, below := (set i | i in come && gap < i < end), (set i | i in come && gap < i < r);
    assert all == below + Stretch(r, end) && below !! Stretch(r, end);
  }

  // With at most `m` links of the head waiting at once, the head lands, and as many links of the tail as
  // an author's share of the buffer leaves besides them.
  lemma TailFirstLands(order: seq<nat>, n: nat, r: nat, m: nat)
    requires TailFirst(order, n, r) && MostAtOnce(order, n, r, m) && m <= PENDING_AUTHOR_MAX
    ensures forall i :: 0 <= i < n ==> (Lands(order, n, i) <==> i < r + PENDING_AUTHOR_MAX - m)
  {
    assert |order| == n;
    hide TailFirst, HeadWaiting, CrowdedAt;
    var end := r + PENDING_AUTHOR_MAX - m;
    forall y: nat | y < n && y < end ensures !CrowdedOut(order, n, y) {
      forall j | 0 <= j <= |order| ensures !CrowdedAt(order, j, n, y) {
        NoneCrowdedFirst(order, n, r, m, j, y);
      }
    }
    if end < n {
      var j :| 0 <= j <= |order| && |HeadWaiting(order, j, n, r)| == m;
      j := SomethingWaits(order, n, r, m, j);
      CrowdedWhenMostWait(order, n, r, m, j);
      assert CrowdedOut(order, n, end);
    }
  }

  // A time when the tail has come, the head has not, and the most wait.
  lemma SomethingWaits(order: seq<nat>, n: nat, r: nat, m: nat, k: nat) returns (j: nat)
    requires TailFirst(order, n, r) && k <= n && |HeadWaiting(order, k, n, r)| == m
    requires forall l :: 0 <= l <= n ==> |HeadWaiting(order, l, n, r)| <= m
    ensures n - r <= j <= n && Gap(Come(order, j), n) < r && |HeadWaiting(order, j, n, r)| == m
  {
    if m == 0 {
      j := n - r;
      TailThenHead(order, n, r, j);
      GapIs(Come(order, j), n, 0);
    } else {
      j := k;
      TailThenHead(order, n, r, j);
      var i :| i in HeadWaiting(order, j, n, r);
    }
  }

  lemma HeadIsGapless(order: seq<nat>, n: nat, r: nat, j: nat)
    requires TailFirst(order, n, r) && (forall k :: n - r <= k < n ==> order[k] == k - (n - r)) && j <= n
    ensures HeadWaiting(order, j, n, r) == {}
  {
    TailThenHead(order, n, r, j);
    var come := Come(order, j);
    forall i | i in come && i < r ensures i < j - (n - r) {
      var k :| 0 <= k < j && order[k] == i;
    }
    if j >= n - r {
      forall i | 0 <= i < j - (n - r) ensures i in come {
        assert order[..j][i + (n - r)] == i;
      }
    }
    assert forall i :: i in come && i < r ==> i <= Gap(come, n);
  }

  // A head in its own order never waits, and as much of the tail lands as an author may have waiting.
  lemma HeadInOrder(order: seq<nat>, n: nat, r: nat)
    requires TailFirst(order, n, r) && forall k :: n - r <= k < n ==> order[k] == k - (n - r)
    ensures MostAtOnce(order, n, r, 0)
    ensures forall i :: 0 <= i < n ==> (Lands(order, n, i) <==> i < r + PENDING_AUTHOR_MAX)
  {
    forall j | 0 <= j <= |order| ensures HeadWaiting(order, j, n, r) == {} {
      HeadIsGapless(order, n, r, j);
    }
    assert |HeadWaiting(order, 0, n, r)| == 0;
    hide TailFirst, HeadWaiting, Lands;
    TailFirstLands(order, n, r, 0);
  }

  // Once the head begins to come, only the head is left to come, and that lands.
  lemma TailFirstLeavesNothing(order: seq<nat>, n: nat, r: nat, m: nat)
    requires TailFirst(order, n, r) && MostAtOnce(order, n, r, m) && m <= PENDING_AUTHOR_MAX
    ensures WaitAt(order, |order|, n).kept == {}
  {
    hide MostAtOnce, Lands;
    TailFirstLands(order, n, r, m);
    forall k | 0 <= k < |order| && 0 in Come(order, k) ensures Lands(order, n, order[k]) {
      TailThenHead(order, n, r, k);
    }
    hide TailFirst, WaitAt;
    NothingLeftWaiting(order, n);
  }

  lemma InEachPlaceOnce(order: seq<nat>, n: nat, r: nat)
    requires TailFirst(order, n, r)
    ensures IsOrderOf(order, 0, n)
  {
  }

  function Min(a: nat, b: nat): nat {
    if a <= b then a else b
  }

  lemma OnlyLandedHeld(doc: set<Change>, pending: map<Change, Pending>, chain: seq<Carrier>, end: nat)
    requires DocIs(doc, chain, end) && forall i :: 0 <= i < |chain| ==> ChangeAt(chain, i) !in pending
    ensures Held(chain, doc, pending) == Stretch(0, Min(|chain|, end))
  {
  }

  // A chain whose tail from `r` on comes before its head, with at most `m` links of the head waiting at
  // once: the head lands and as much of the tail as there is room for beside it, nothing is left
  // waiting, and the keys handed back are those of exactly the rest.
  method BackfilledTailFirst(mesh: MeshDoc, chain: seq<Carrier>, ghost pubkey: string, ghost first: nat,
                             order: seq<nat>, ghost r: nat, ghost m: nat)
    returns (ghost gone: seq<string>)
    requires mesh.Valid() && mesh.gate == None && IsChain(chain, pubkey, first)
    requires NoneSeen(chain, mesh.delivered) && HangsOff(chain, mesh.doc)
    requires Of(mesh.pending, pubkey) == {} && |mesh.pending| + PENDING_AUTHOR_MAX <= PENDING_TOTAL_MAX
    requires Unrepeated(mesh.delivered + Named(chain, Stretch(0, |chain|)))
    requires TailFirst(order, |chain|, r) && MostAtOnce(order, |chain|, r, m) && m <= PENDING_AUTHOR_MAX
    modifies mesh
    ensures mesh.Valid() && mesh.dropped == old(mesh.dropped) + gone
    ensures DocIs(mesh.doc, chain, r + PENDING_AUTHOR_MAX - m)
    ensures forall i :: 0 <= i < |chain| ==> ChangeAt(chain, i) !in mesh.pending
    ensures KeysOf(gone, chain, Stretch(0, |chain|), Stretch(0, Min(|chain|, r + PENDING_AUTHOR_MAX - m)))
  {
    hide IsChain, HangsOff, NoneSeen, Unrepeated, MeshDoc.Valid, Lands, MostAtOnce, KeysOf, WaitAt, Held, Of, Min,
        IsOrderOf, Named, TailFirst, Stretch, ChangeAt;
    assert IsOrderOf(order, 0, |chain|) by {
      InEachPlaceOnce(order, |chain|, r);
    }
    TailFirstLands(order, |chain|, r, m);
    TailFirstLeavesNothing(order, |chain|, r, m);
    gone := Backfilled(mesh, chain, pubkey, first, order);
    OnlyLandedHeld(mesh.doc, mesh.pending, chain, r + PENDING_AUTHOR_MAX - m);
  }

  // ---- Something left waiting ----

  // Links 1 to 129 come, one more than may wait, then the first, and last the link after them.
  ghost function Straggling(): seq<nat> {
    seq(131, k => if k < 129 then k + 1 else if k == 129 then 0 else 130)
  }

  lemma {:induction false} StragglingSoFar(k: nat)
    requires k <= 129
    ensures Come(Straggling(), k) == Stretch(1, k + 1)
    ensures WaitAt(Straggling(), k, 131) == if k <= 128 then Wait(Stretch(1, k + 1), 131) else Wait(Stretch(1, 129), 129)
  {
    if k > 0 {
      StragglingSoFar(k - 1);
      StragglingStep(k);
    }
  }

  lemma StragglingStep(k: nat)
    requires 1 <= k <= 129 && Come(Straggling(), k - 1) == Stretch(1, k)
    ensures Come(Straggling(), k) == Stretch(1, k + 1)
    ensures Joined(Wait(Stretch(1, k), 131), Stretch(1, k), 131, k)
         == if k <= 128 then Wait(Stretch(1, k + 1), 131) else Wait(Stretch(1, 129), 129)
  {
    hide Stretch, Gap;
    assert Straggling()[..k] == Straggling()[..k - 1] + [k];
    assert Stretch(1, k) + {k} == Stretch(1, k + 1);
    GapIs(Stretch(1, k), 131, 0);
    if k == 129 {
      LastIsHighest();
    }
  }

  lemma LastIsHighest()
    ensures var all := Stretch(1, 129) + {129}; Highest(all) == 129 && all - {129} == Stretch(1, 129)
  {
    hide Stretch;
    var all := Stretch(1, 129) + {129};
    assert 129 in all && Highest(all) in all;
  }

  lemma StragglingIsOrder()
    ensures IsOrderOf(Straggling(), 0, 131)
    ensures |Straggling()| == 131 && Straggling()[129] == 0 && Straggling()[130] == 130
  {
    var order := Straggling();
    forall i: nat | i < 131 ensures i in order {
      assert order[if i == 0 then 129 else if i == 130 then 130 else i - 1] == i;
    }
  }

  // The first link takes all that waits along, up to the one given up.
  lemma StragglingLands()
    ensures Come(Straggling(), 130) == Stretch(0, 130)
    ensures Joined(Wait(Stretch(1, 129), 129), Stretch(1, 130), 131, 0) == Wait({}, 129)
  {
    hide Stretch, Gap, WaitAt;
    StragglingSoFar(129);
    assert Straggling()[..130] == Straggling()[..129] + [0];
    assert Stretch(1, 130) + {0} == Stretch(0, 130);
    GapIs(Stretch(1, 130), 131, 0);
    GapIs(Stretch(0, 130), 131, 130);
  }

  lemma StragglerJoins()
    ensures Joined(Wait({}, 129), Stretch(0, 130), 131, 130) == Wait({130}, 129)
  {
    hide Stretch, Gap;
    GapIs(Stretch(0, 130), 131, 130);
    assert {} + {130} == {130};
  }

  // Otherwise a link may be left waiting for one whose key has been handed back: here the last.
  lemma StragglerWaits()
    ensures IsOrderOf(Straggling(), 0, 131) && WaitAt(Straggling(), |Straggling()|, 131) == Wait({130}, 129)
  {
    hide Stretch, Joined, Straggling, WaitAt, Come, IsOrderOf;
    StragglingIsOrder();
    StragglingSoFar(129);
    StragglingLands();
    StragglerJoins();
    WaitingOneMore(Straggling(), 129, 131);
    WaitingOneMore(Straggling(), 130, 131);
  }
}
