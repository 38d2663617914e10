/** A replicated document: changes applied in causal order, orphans held back under ceilings, and a
    write gate nothing gets round (crates/fofoca-doc/src/lib.rs, crates/fofoca-util/src/consts.rs). */
module MeshDocs {
  import opened Collections
  import opened Options
  import opened Json

  const PENDING_AUTHOR_MAX: nat := 128
  const PENDING_TOTAL_MAX: nat := 512

  const GENESIS_ACTOR := "habilis-mesh/genesis"

  // A change with the changes it depends on. A change's hash covers all of this, so the change itself
  // stands for its hash.
  datatype Change = Change(actor: string, serial: nat, deps: seq<Change>, payload: string)

  // The signed message a change travels in: `change` is what its body opens and decodes to, if anything.
  datatype Frame = Frame(author: string, pubkey: string, change: Option<Change>, dedupKey: string)

  datatype Pending = Pending(frame: Frame, change: Change, arrival: nat)

  // A map at the document's root with an entry per nickname, one field of which only that peer may write.
  datatype SelfWriteGate = SelfWriteGate(table: string, field: string)

  datatype Ingested = Applied(changed: bool, doc: Value) | Duplicate | Buffered | Rejected | Ignored

  // What a document holds before anything has arrived.
  function Genesis(gate: Option<SelfWriteGate>): set<Change> {
    if gate.Some? then {Change(GENESIS_ACTOR, 1, [], gate.value.table)} else {}
  }

  // ---- Causal order ----

  predicate Ready(applied: set<Change>, c: Change) {
    forall d :: d in c.deps ==> d in applied
  }

  ghost predicate Closed(changes: set<Change>) {
    forall c :: c in changes ==> Ready(changes, c)
  }

  // The actor has already used this number for something else, which the document refuses.
  predicate Repeats(doc: set<Change>, c: Change) {
    exists d :: d in doc && d.actor == c.actor && d.serial == c.serial && d != c
  }

  ghost predicate Unrepeated(changes: set<Change>) {
    forall c :: c in changes ==> !Repeats(changes, c)
  }

  // With nothing missing and nothing ready left waiting, every dependency-closed set of what was delivered
  // has been applied.
  lemma {:induction false} ClosedIsApplied(doc: set<Change>, waiting: set<Change>, closed: set<Change>, c: Change)
    requires forall h :: h in waiting ==> !Ready(doc, h)
    requires Closed(closed) && closed <= doc + waiting && c in closed
    ensures c in doc
    decreases c
  {
    assert Ready(closed, c);
    forall d | d in c.deps ensures d in doc {
      ClosedIsApplied(doc, waiting, closed, d);
    }
  }

  // ---- The gate ----

  // Every peer's guarded field, by nickname.
  function GatedEntries(json: Value, gate: SelfWriteGate): map<string, Value> {
    match Member(json, gate.table)
    case Some(Object(peers)) => map nick | nick in peers &&
        Member(peers[nick], gate.field).Some? :: Member(peers[nick], gate.field).value
    case _ => map[]
  }

  function Entry(entries: map<string, Value>, nick: string): Option<Value> {
    if nick in entries then Some(entries[nick]) else None
  }

  // The field the gate guards for a nickname, as a document shows it: root, table, nickname, field.
  ghost function Guarded(view: set<Change> -> Value, doc: set<Change>, gate: SelfWriteGate,
                         nick: string): Option<Value> {
    match view(doc)
    case Object(root) =>
      if gate.table in root && root[gate.table].Object? && nick in root[gate.table].members then
        match root[gate.table].members[nick]
        case Object(peer) => if gate.field in peer then Some(peer[gate.field]) else None
        case _ => None
      else None
    case _ => None
  }

  // The gate reads that field.
  lemma GatedIsGuarded(view: set<Change> -> Value, doc: set<Change>, gate: SelfWriteGate, nick: string)
    ensures Entry(GatedEntries(view(doc), gate), nick) == Guarded(view, doc, gate, nick)
  {
  }

  // What the gate turns away: a number its actor has used for something else, or a change under which the
  // guarded field of a nickname that is not the author's would read differently.
  lemma ForgesWhen(view: set<Change> -> Value, doc: set<Change>, gate: Option<SelfWriteGate>, c: Change, author: string)
    ensures Forges(view, doc, gate, c, author) <==>
              && gate.Some?
              && (|| (exists d :: d in doc && d.actor == c.actor && d.serial == c.serial && d != c)
                  || exists nick :: nick != author && Guarded(view, doc + {c}, gate.value, nick) != Guarded(view, doc, gate.value, nick))
  {
    if gate.Some? {
      forall nick
        ensures Entry(GatedEntries(view(doc), gate.value), nick) == Guarded(view, doc, gate.value, nick)
        ensures Entry(GatedEntries(view(doc + {c}), gate.value), nick) == Guarded(view, doc + {c}, gate.value, nick)
      {
        GatedIsGuarded(view, doc, gate.value, nick);
        GatedIsGuarded(view, doc + {c}, gate.value, nick);
      }
      hide GatedEntries, Guarded;
      if nick :| nick != author && Guarded(view, doc + {c}, gate.value, nick) != Guarded(view, doc, gate.value, nick) {
        assert nick in GatedEntries(view(doc), gate.value).Keys + GatedEntries(view(doc + {c}), gate.value).Keys;
      }
    }
  }

  // Applying the change would be refused, or would move a guarded field that is not its author's.
  predicate Forges(view: set<Change> -> Value, doc: set<Change>, gate: Option<SelfWriteGate>, c: Change,
                   author: string) {
    gate.Some? &&
    (Repeats(doc, c) ||
     var before, after := GatedEntries(view(doc), gate.value), GatedEntries(view(doc + {c}), gate.value);
     exists nick :: nick in before.Keys + after.Keys && nick != author && Entry(before, nick) != Entry(after, nick))
  }

  lemma PassingMovesOnlyItsAuthors(view: set<Change> -> Value, doc: set<Change>, gate: SelfWriteGate, c: Change,
                                   author: string, nick: string)
    requires !Forges(view, doc, Some(gate), c, author) && nick != author
    ensures Guarded(view, doc + {c}, gate, nick) == Guarded(view, doc, gate, nick)
  {
    hide Guarded, Forges;
    ForgesWhen(view, doc, Some(gate), c, author);
  }

  // ---- What has been applied, in order ----

  ghost function Changes(frames: seq<Frame>): set<Change> {
    set f | f in frames && f.change.Some? :: f.change.value
  }

  // The document as it was when only the first so many frames had been applied.
  ghost function DocAfter(gate: Option<SelfWriteGate>, history: seq<Frame>): set<Change> {
    Genesis(gate) + Changes(history)
  }

  // No application so far has moved a guarded field but its own author's.
  ghost predicate GateHeld(view: set<Change> -> Value, gate: Option<SelfWriteGate>, history: seq<Frame>) {
    gate.Some? ==>
      forall i, nick :: 0 <= i < |history| && nick != history[i].author ==> Untouched(view, gate, history, i, nick)
  }

  // The step from the first `i` frames to the next left a nickname's guarded field as it was.
  ghost predicate Untouched(view: set<Change> -> Value, gate: Option<SelfWriteGate>,
                            history: seq<Frame>, i: nat, nick: string)
    requires gate.Some? && i < |history|
  {
    Guarded(view, DocAfter(gate, history[..i + 1]), gate.value, nick)
    == Guarded(view, DocAfter(gate, history[..i]), gate.value, nick)
  }

  lemma ApplyingExtends(gate: Option<SelfWriteGate>, history: seq<Frame>, f: Frame)
    requires f.change.Some?
    ensures DocAfter(gate, history + [f]) == DocAfter(gate, history) + {f.change.value}
  {
  }

  lemma ApplyingKeepsGate(view: set<Change> -> Value, gate: Option<SelfWriteGate>, history: seq<Frame>, f: Frame)
    requires GateHeld(view, gate, history) && f.change.Some?
    requires !Forges(view, DocAfter(gate, history), gate, f.change.value, f.author)
    ensures GateHeld(view, gate, history + [f])
  {
    var more := history + [f];
    if gate.Some? {
      hide Guarded, Forges, DocAfter;
      forall i, nick | 0 <= i < |more| && nick != more[i].author
        ensures Untouched(view, gate, more, i, nick)
      {
        if i < |history| {
          assert Untouched(view, gate, history, i, nick);
          assert more[..i] == history[..i] && more[..i + 1] == history[..i + 1] && more[i] == history[i];
        } else {
          assert more[..i] == history && more[..i + 1] == more;
          ApplyingExtends(gate, history, f);
          PassingMovesOnlyItsAuthors(view, DocAfter(gate, history), gate.value, f.change.value, f.author, nick);
        }
      }
    }
  }

  // So over any run a nickname's guarded field moves only if a frame of that nickname's was applied in it.
  lemma {:induction false} OnlyItsOwner(view: set<Change> -> Value, gate: SelfWriteGate, before: seq<Frame>,
                                        after: seq<Frame>, nick: string)
    requires GateHeld(view, Some(gate), after) && before <= after
    requires forall i :: |before| <= i < |after| ==> after[i].author != nick
    ensures Guarded(view, DocAfter(Some(gate), after), gate, nick) ==
        Guarded(view, DocAfter(Some(gate), before), gate, nick)
    decreases |after|
  {
    hide Guarded, DocAfter;
    if before != after {
      var n := |after| - 1;
      assert Untouched(view, Some(gate), after, n, nick) && after[..n + 1] == after;
      forall i, m | 0 <= i < n && m != after[..n][i].author ensures Untouched(view, Some(gate), after[..n], i, m) {
        assert Untouched(view, Some(gate), after, i, m);
        assert after[..n][..i] == after[..i] && after[..n][..i + 1] == after[..i + 1];
      }
      OnlyItsOwner(view, gate, before, after[..n], nick);
    } else {
      assert before == after;
    }
  }

  // At some point of this history the change would have been turned away: by the gate, or for its number.
  ghost predicate Refusable(view: set<Change> -> Value, gate: Option<SelfWriteGate>, history: seq<Frame>, c: Change,
                            author: string) {
    exists i :: 0 <= i <= |history| && RefusedAt(view, gate, history, i, c, author)
  }

  ghost predicate RefusedAt(view: set<Change> -> Value, gate: Option<SelfWriteGate>, history: seq<Frame>, i: nat,
                            c: Change,
                            author: string)
    requires i <= |history|
  {
    var doc := DocAfter(gate, history[..i]);
    Forges(view, doc, gate, c, author) || Repeats(doc, c)
  }

  // What was lost of a buffer was turned away.
  ghost predicate LostRightly(view: set<Change> -> Value, gate: Option<SelfWriteGate>, history: seq<Frame>,
                              waiting: map<Change, Pending>, before: set<Change>, now: set<Change>) {
    forall h :: h in now && h !in before ==> h in waiting && Refusable(view, gate, history, h, waiting[h].frame.author)
  }

  lemma StaysRefusable(view: set<Change> -> Value, gate: Option<SelfWriteGate>, was: seq<Frame>, history: seq<Frame>,
                       c: Change,
                       author: string)
    requires Refusable(view, gate, was, c, author) && was <= history
    ensures Refusable(view, gate, history, c, author)
  {
    hide DocAfter, Forges, Repeats;
    var i :| 0 <= i <= |was| && RefusedAt(view, gate, was, i, c, author);
    assert was[..i] == history[..i];
    assert RefusedAt(view, gate, history, i, c, author);
  }

  lemma LosingOneRightly(view: set<Change> -> Value, gate: Option<SelfWriteGate>, was: seq<Frame>, history: seq<Frame>,
                         waiting: map<Change, Pending>, before: set<Change>, lost: set<Change>, now: set<Change>,
                         h: Change)
    requires LostRightly(view, gate, was, waiting, before, lost) && was <= history
    requires now == lost || (now == lost + {h} && h in waiting && RefusedAt(view, gate, was, |was|, h, waiting[h].frame.author))
    ensures LostRightly(view, gate, history, waiting, before, now)
  {
    hide DocAfter, Forges, Repeats;
    forall k | k in now && k !in before ensures k in waiting && Refusable(view, gate, history, k, waiting[k].frame.author) {
      var i := |was|;
      if k in lost {
        i :| 0 <= i <= |was| && RefusedAt(view, gate, was, i, k, waiting[k].frame.author);
      }
      assert was[..i] == history[..i];
      assert RefusedAt(view, gate, history, i, k, waiting[k].frame.author);
    }
  }

  // ---- Waiting ----

  function Of(pending: map<Change, Pending>, pubkey: string): set<Change> {
    set h | h in pending && pending[h].frame.pubkey == pubkey
  }

  // Each entry is filed under its own change, signed by its actor, in an order of arrival.
  ghost predicate Parked(pending: map<Change, Pending>, arrivals: nat) {
    && (forall h :: h in pending ==>
          && pending[h].change == h && pending[h].frame.change == Some(h) && pending[h].frame.pubkey == h.actor
          && pending[h].arrival <= arrivals)
    && forall h, k :: h in pending && k in pending && h != k ==> pending[h].arrival != pending[k].arrival
  }

  ghost predicate Bounded(pending: map<Change, Pending>) {
    |pending| <= PENDING_TOTAL_MAX && forall p :: |Of(pending, p)| <= PENDING_AUTHOR_MAX
  }

  ghost predicate NoneReady(doc: set<Change>, pending: map<Change, Pending>) {
    forall h :: h in pending ==> !Ready(doc, h)
  }

  // Later in its author's order, or as late and arrived later.
  predicate Outranks(a: Pending, b: Pending) {
    a.change.serial > b.change.serial || (a.change.serial == b.change.serial && a.arrival >= b.arrival)
  }

  predicate IsHighest(pending: map<Change, Pending>, pubkey: string, h: Change) {
    h in Of(pending, pubkey) && forall k :: k in Of(pending, pubkey) ==> Outranks(pending[h], pending[k])
  }

  // What buffering an orphan comes to: which entries go or stay out, and whose keys are handed back.
  ghost predicate Buffers(before: map<Change, Pending>, after: map<Change, Pending>, entry: Pending,
                          dropped: seq<string>, outcome: Ingested) {
    var h, pubkey := entry.change, entry.frame.pubkey;
    if h in before then
      after == before && dropped == [] && outcome == Buffered
    else if |Of(before, pubkey)| >= PENDING_AUTHOR_MAX then
      // The author's own highest makes room, unless the newcomer is as high.
      exists victim :: IsHighest(before, pubkey, victim) &&
        if h.serial >= victim.serial then after == before && dropped == [entry.frame.dedupKey] && outcome == Ignored
        else after == (before - {victim})[h := entry] && dropped == [before[victim].frame.dedupKey] && outcome == Buffered
    else if |before| >= PENDING_TOTAL_MAX then
      after == before && dropped == [entry.frame.dedupKey] && outcome == Ignored
    else
      after == before[h := entry] && dropped == [] && outcome == Buffered
  }

  lemma OfAdded(pending: map<Change, Pending>, h: Change, entry: Pending, p: string)
    requires h !in pending
    ensures Of(pending[h := entry], p) == Of(pending, p) + if p == entry.frame.pubkey then {h} else {}
    ensures |pending[h := entry]| == |pending| + 1
  {
  }

  lemma OfRemoved(pending: map<Change, Pending>, h: Change, p: string)
    requires h in pending
    ensures Of(pending - {h}, p) == Of(pending, p) - {h}
    ensures |pending - {h}| == |pending| - 1
  {
  }

  ghost predicate HasRoom(pending: map<Change, Pending>, pubkey: string) {
    |Of(pending, pubkey)| < PENDING_AUTHOR_MAX && |pending| < PENDING_TOTAL_MAX
  }

  // Giving up the author's highest makes room.
  lemma MakingRoom(before: map<Change, Pending>, arrivals: nat, pubkey: string, victim: Change)
    requires Parked(before, arrivals) && Bounded(before) && victim in Of(before, pubkey)
    ensures Parked(before - {victim}, arrivals) && Bounded(before - {victim}) && HasRoom(before - {victim}, pubkey)
    ensures forall p :: p != pubkey ==> Of(before - {victim}, p) == Of(before, p)
  {
    OfRemoved(before, victim, pubkey);
    assert |Of(before, pubkey)| <= PENDING_AUTHOR_MAX;
    forall p ensures |Of(before - {victim}, p)| <= PENDING_AUTHOR_MAX &&
        (p != pubkey ==> Of(before - {victim}, p) == Of(before, p)) {
      OfRemoved(before, victim, p);
      assert |Of(before, p)| <= PENDING_AUTHOR_MAX;
    }
  }

  lemma ParkedGrows(room: map<Change, Pending>, arrivals: nat, entry: Pending)
    requires Parked(room, arrivals) && entry.arrival == arrivals + 1
    requires entry.frame.change == Some(entry.change) && entry.frame.pubkey == entry.change.actor
    ensures Parked(room[entry.change := entry], arrivals + 1)
  {
  }

  lemma MovingIn(room: map<Change, Pending>, arrivals: nat, entry: Pending)
    requires Parked(room, arrivals) && Bounded(room) && HasRoom(room, entry.frame.pubkey)
    requires entry.change !in room && entry.arrival == arrivals + 1
    requires entry.frame.change == Some(entry.change) && entry.frame.pubkey == entry.change.actor
    ensures Parked(room[entry.change := entry], arrivals + 1) && Bounded(room[entry.change := entry])
    ensures forall p :: p != entry.frame.pubkey ==> Of(room[entry.change := entry], p) == Of(room, p)
  {
    hide Parked, Of;
    var after := room[entry.change := entry];
    ParkedGrows(room, arrivals, entry);
    OfAdded(room, entry.change, entry, entry.frame.pubkey);
    forall p ensures |Of(after, p)| <= PENDING_AUTHOR_MAX && (p != entry.frame.pubkey ==> Of(after, p) == Of(room, p)) {
      OfAdded(room, entry.change, entry, p);
      assert |Of(room, p)| <= PENDING_AUTHOR_MAX;
    }
  }

  // Buffering an orphan keeps the buffer in order and in bounds, and touches no other author's entries.
  lemma ParkingOne(before: map<Change, Pending>, after: map<Change, Pending>, arrivals: nat,
                   entry: Pending, dropped: seq<string>, outcome: Ingested)
    requires Parked(before, arrivals) && Bounded(before) && entry.arrival == arrivals + 1
    requires entry.frame.change == Some(entry.change) && entry.frame.pubkey == entry.change.actor
    requires Buffers(before, after, entry, dropped, outcome)
    ensures Parked(after, arrivals + 1) && Bounded(after)
    ensures |after| <= 512 && forall p :: |Of(after, p)| <= 128
    ensures forall p :: p != entry.frame.pubkey ==> Of(after, p) == Of(before, p)
  {
    assert Bounded(after) ==> |after| <= 512 && forall p :: |Of(after, p)| <= 128;
    var h := entry.change;
    if after == before {
      hide Bounded, Of, Buffers;
    } else if after == before[h := entry] && |Of(before, h.actor)| < PENDING_AUTHOR_MAX {
      hide Bounded, Of;
      MovingIn(before, arrivals, entry);
    } else {
      var victim :| IsHighest(before, h.actor, victim) && after == (before - {victim})[h := entry];
      assert h !in before && victim in Of(before, h.actor) && entry.frame.pubkey == h.actor;
      hide Buffers, Bounded, Of;
      MakingRoom(before, arrivals, h.actor, victim);
      MovingIn(before - {victim}, arrivals, entry);
    }
  }

  // ---- The document ----

  // The document holds exactly what has been applied, in causal order, one change per actor and number,
  // and the frame each change came in.
  ghost predicate Documented(gate: Option<SelfWriteGate>, doc: set<Change>, applied: set<Change>,
                             frames: map<Change, Frame>, history: seq<Frame>) {
    && applied == doc == DocAfter(gate, history)
    && Closed(doc) && Unrepeated(doc)
    && frames.Keys == doc - Genesis(gate)
    && (forall c :: c in frames ==> frames[c].change == Some(c))
  }

  // Applying a change whose dependencies are there, and whose number is free, keeps that so.
  lemma ApplyingDocuments(gate: Option<SelfWriteGate>, doc: set<Change>, frames: map<Change, Frame>,
                          history: seq<Frame>, c: Change, f: Frame)
    requires Documented(gate, doc, doc, frames, history)
    requires f.change == Some(c) && c !in doc && Ready(doc, c) && !Repeats(doc, c)
    ensures Documented(gate, doc + {c}, doc + {c}, frames[c := f], history + [f])
  {
  }

  // Everything delivered is in the document, waiting, in hand, or lost.
  ghost predicate Accounted(doc: set<Change>, pending: map<Change, Pending>, inHand: set<Change>, lost: set<Change>,
                            delivered: set<Change>,
                            genesis: set<Change>) {
    doc + pending.Keys + inHand + lost == delivered + genesis
  }

  // Without a gate: the document is closed, nothing that waits is ready, and whatever was delivered is in
  // the document, waiting under its actor's key, or lost.
  ghost predicate IsSettled(doc: set<Change>, pending: map<Change, Pending>, lost: set<Change>, delivered: set<Change>) {
    && Closed(doc) && NoneReady(doc, pending) && pending.Keys !! doc
    && doc + pending.Keys + lost == delivered
    && forall h :: h in pending ==> pending[h].change == h && pending[h].frame.pubkey == h.actor
  }

  // The frame carries a change, and its signer is the change's actor.
  predicate IsHonest(frame: Frame) {
    frame.change.Some? && frame.change.value.actor == frame.pubkey
  }

  class MeshDoc {
    // How a set of changes reads as a document.
    const view: set<Change> -> Value
    const gate: Option<SelfWriteGate>
    var doc: set<Change>
    var applied: set<Change>
    var frames: map<Change, Frame>
    var pending: map<Change, Pending>
    var pendingArrivals: nat
    var dropped: seq<string>
    ghost var history: seq<Frame>
    ghost var delivered: set<Change>
    ghost var lost: set<Change>

    ghost predicate Sound(inHand: set<Change>)
      reads this
    {
      && Documented(gate, doc, applied, frames, history)
      && Parked(pending, pendingArrivals) && Bounded(pending) && pending.Keys !! doc
      && Accounted(doc, pending, inHand, lost, delivered, Genesis(gate))
      && GateHeld(view, gate, history)
    }

    ghost predicate Valid()
      reads this
    {
      Sound({}) && NoneReady(doc, pending)
    }

    // One change per actor and number has been delivered.
    ghost predicate NoEquivocation()
      reads this
    {
      Unrepeated(delivered + Genesis(gate))
    }

    constructor (view: set<Change> -> Value, gate: Option<SelfWriteGate>)
      ensures Valid() && this.view == view && this.gate == gate
      ensures doc == Genesis(gate) && pending == map[] && delivered == {} && lost == {} && dropped == []
      ensures doc == if gate == None then {} else {Change("habilis-mesh/genesis", 1, [], gate.value.table)}
    {
      this.view, this.gate := view, gate;
      doc, applied, frames := Genesis(gate), Genesis(gate), map[];
      pending, pendingArrivals, dropped := map[], 0, [];
      history, delivered, lost := [], {}, {};
      assert Changes([]) == {};
    }

    // Whatever was lost on the way has come again, and has landed or waits.
    ghost predicate NothingMissing()
      reads this
    {
      lost <= doc + pending.Keys
    }

    // Whatever the order, what has been applied is the largest dependency-closed part of what has been
    // delivered, as long as nothing lost is still missing: a change that was turned away may have come
    // again since.
    lemma AppliedIsLargestClosed(closed: set<Change>)
      requires Valid() && NothingMissing()
      ensures Closed(doc) && doc <= delivered + Genesis(gate)
      ensures forall c, d :: c in doc && d in c.deps ==> d in doc
      ensures (forall c, d :: c in closed && d in c.deps ==> d in closed) && closed <= delivered + Genesis(gate) ==>
                closed <= doc
    {
      assert (forall c, d :: c in closed && d in c.deps ==> d in closed) ==> Closed(closed);
      if Closed(closed) && closed <= delivered + Genesis(gate) {
        forall c | c in closed ensures c in doc {
          ClosedIsApplied(doc, pending.Keys, closed, c);
        }
      }
    }

    // No change is in the document ahead of one it depends on, and none waits without cause.
    lemma NothingAhead()
      requires Valid()
      ensures forall c, d :: c in doc && d in c.deps ==> d in doc
      ensures forall h :: h in pending ==> exists d :: d in h.deps && d !in doc
    {
      hide Parked, Bounded, Accounted, GateHeld;
      forall c, d | c in doc && d in c.deps ensures d in doc {
        assert Ready(doc, c);
      }
      forall h | h in pending ensures exists d :: d in h.deps && d !in doc {
        assert !Ready(doc, h);
      }
    }

    lemma DocIsHistory()
      requires Documented(gate, doc, applied, frames, history)
      ensures applied == doc == DocAfter(gate, history)
    {
    }

    // Two replicas that have been sent the same changes, in whatever order, hold the same document and
    // wait for the same ones.
    lemma Converges(other: MeshDoc)
      requires Valid() && other.Valid() && NothingMissing() && other.NothingMissing()
      requires gate == other.gate && delivered == other.delivered
      ensures doc == other.doc && pending.Keys == other.pending.Keys
    {
      hide Valid, NothingMissing, Closed;
      AppliedIsLargestClosed(other.doc);
      other.AppliedIsLargestClosed(doc);
      WaitingIsTheRest();
      other.WaitingIsTheRest();
    }

    // What waits is whatever has come and has not been applied.
    lemma WaitingIsTheRest()
      requires Valid() && NothingMissing()
      ensures pending.Keys == delivered + Genesis(gate) - doc
    {
      hide Documented, Parked, Bounded, GateHeld, NoneReady;
    }

    // Put a change into the document and its frame on record; a repeated number leaves both alone.
    method Apply(c: Change, frame: Frame) returns (ok: bool)
      requires Sound({c}) && frame.change == Some(c)
      requires c !in doc && c !in pending && Ready(doc, c) && !Forges(view, doc, gate, c, frame.author)
      modifies `doc, `applied, `frames, `history, `lost
      ensures Sound({})
      ensures ok <==> !Repeats(old(doc), c)
      ensures doc == (if ok then old(doc) + {c} else old(doc)) && lost == if ok then old(lost) else old(lost) + {c}
      ensures history == if ok then old(history) + [frame] else old(history)
    {
      hide Parked, Bounded, GateHeld, Documented, Forges, Repeats, Ready, DocAfter, Genesis;
      DocIsHistory();
      if Repeats(doc, c) {
        lost := lost + {c};
        return false;
      }
      ApplyingKeepsGate(view, gate, history, frame);
      ApplyingDocuments(gate, doc, frames, history, c, frame);
      doc := doc + {c};
      applied := applied + {c};
      frames := frames[c := frame];
      history := history + [frame];
      return true;
    }

    // Apply one buffered change whose dependencies have come, through the gate.
    method TryApplyPending(h: Change)
      requires Sound({}) && Ready(doc, h)
      modifies `doc, `applied, `frames, `history, `lost, `pending
      ensures Sound({}) && pending == old(pending) - {h} && old(history) <= history
      ensures var refused := h in old(pending) &&
                             (Forges(view, old(doc), gate, h, old(pending)[h].frame.author) || Repeats(old(doc), h));
              && lost == (if refused then old(lost) + {h} else old(lost))
              && doc == if h in old(pending) && !refused then old(doc) + {h} else old(doc)
      ensures gate == None && NoEquivocation() ==> lost == old(lost)
    {
      hide Documented, Parked, Bounded, GateHeld, Ready, Unrepeated;
      if h !in pending {
        assert pending == pending - {h};
        return;
      }
      var entry := pending[h];
      TakingOut(h);
      pending := pending - {h};
      if Forges(view, doc, gate, h, entry.frame.author) {
        lost := lost + {h};
        return;
      }
      NoneRefused(h);
      var ok := Apply(entry.change, entry.frame);
    }

    // Taking an entry out leaves the rest in order.
    lemma TakingOut(h: Change)
      requires Sound({}) && h in pending
      ensures Parked(pending - {h}, pendingArrivals) && Bounded(pending - {h})
      ensures Accounted(doc, pending - {h}, {h}, lost, delivered, Genesis(gate))
      ensures pending[h].change == h && pending[h].frame.change == Some(h)
    {
      hide Documented, GateHeld, Bounded;
      MakingRoom(pending, pendingArrivals, h.actor, h);
    }

    // With one change per actor and number, the document refuses nothing.
    lemma NoneRefused(c: Change)
      requires doc <= delivered + Genesis(gate) && c in delivered + Genesis(gate)
      ensures NoEquivocation() ==> !Repeats(doc, c)
    {
    }

    // Where everything that has been delivered is, without a gate.
    lemma AllAccountedFor()
      requires Valid() && gate == None
      ensures IsSettled(doc, pending, lost, delivered)
    {
      hide Bounded, GateHeld;
    }

    lemma AllDelivered(inHand: set<Change>)
      requires Sound(inHand)
      ensures doc + inHand + pending.Keys + lost <= delivered + Genesis(gate)
      ensures forall h :: h in pending ==> pending[h].change == h
    {
    }

    // Apply everything whose dependencies have come, until nothing more comes of it. What the gate or the
    // document turns away on the way is lost, and nothing else.
    method DrainPending()
      requires Sound({})
      modifies `doc, `applied, `frames, `history, `lost, `pending
      ensures Valid()
      ensures Drained(old(doc), doc, old(pending), pending, old(lost), lost, old(history), history)
      ensures gate == None && NoEquivocation() ==> lost == old(lost)
    {
      hide Documented, Parked, Bounded, Accounted, GateHeld, Ready, Unrepeated, Drained;
      NothingDrained();
      while true
        invariant Sound({})
        invariant Drained(old(doc), doc, old(pending), pending, old(lost), lost, old(history), history)
        invariant gate == None && NoEquivocation() ==> lost == old(lost)
        decreases |pending|
      {
        DocIsHistory();
        var ready := set h | h in pending && Ready(applied, h);
        if ready == {} {
          return;
        }
        label Before:
        DrainReady(ready);
        DrainedTwice(old(doc), old@Before(doc), doc, old(pending), old@Before(pending), pending,
                     old(lost), old@Before(lost), lost, old(history), old@Before(history), history);
        FewerWait(old@Before(pending), ready);
      }
    }

    // One pass over what was found ready.
    method DrainReady(ready: set<Change>)
      requires Sound({}) && forall h :: h in ready ==> Ready(doc, h)
      modifies `doc, `applied, `frames, `history, `lost, `pending
      ensures Sound({}) && pending == old(pending) - ready
      ensures Drained(old(doc), doc, old(pending), pending, old(lost), lost, old(history), history)
      ensures gate == None && NoEquivocation() ==> lost == old(lost)
    {
      hide Documented, Parked, Bounded, Accounted, GateHeld, Ready, Unrepeated, Drained, Forges, Repeats;
      var todo := ready;
      ghost var done: set<Change> := {};
      NothingDrained();
      while todo != {}
        invariant Sound({}) && (forall h :: h in todo ==> Ready(doc, h))
        invariant done + todo == ready && pending == old(pending) - done
        invariant Drained(old(doc), doc, old(pending), pending, old(lost), lost, old(history), history)
        invariant gate == None && NoEquivocation() ==> lost == old(lost)
        decreases |todo|
      {
        var h :| h in todo;
        label Before:
        DocIsHistory();
        TryApplyPending(h);
        todo := todo - {h};
        OneDrained(old@Before(doc), doc, old@Before(pending), pending, old@Before(lost), lost, old@Before(history), history, h);
        DrainedTwice(old(doc), old@Before(doc), doc, old(pending), old@Before(pending), pending,
                     old(lost), old@Before(lost), lost, old(history), old@Before(history), history);
        OneByOne(old(pending), done, h);
        done := done + {h};
        forall k | k in todo ensures Ready(doc, k) {
          StillReady(old@Before(doc), k);
        }
      }
    }

    // From one state to another by applying, or turning away, some of what waited.
    ghost predicate Drained(was: set<Change>, now: set<Change>, waited: map<Change, Pending>,
                            waits: map<Change, Pending>,
                            gone: set<Change>, allGone: set<Change>, past: seq<Frame>, all: seq<Frame>) {
      && was <= now && now <= was + waited.Keys && gone <= allGone && past <= all
      && (forall h :: h in waits ==> h in waited && waits[h] == waited[h])
      && LostRightly(view, gate, all, waited, gone, allGone)
    }

    lemma NothingDrained()
      ensures Drained(doc, doc, pending, pending, lost, lost, history, history)
    {
    }

    lemma OneDrained(was: set<Change>, now: set<Change>, waited: map<Change, Pending>, waits: map<Change, Pending>,
                     gone: set<Change>, allGone: set<Change>, past: seq<Frame>, all: seq<Frame>, h: Change)
      requires was == DocAfter(gate, past) && past <= all && waits == waited - {h}
      requires var refused := h in waited && (Forges(view, was, gate, h, waited[h].frame.author) || Repeats(was, h));
               && allGone == (if refused then gone + {h} else gone)
               && now == if h in waited && !refused then was + {h} else was
      ensures Drained(was, now, waited, waits, gone, allGone, past, all)
    {
      hide Forges, Repeats, DocAfter;
      assert past[..|past|] == past;
      if h in waited {
        assert RefusedAt(view, gate, past, |past|, h, waited[h].frame.author)
          <==> Forges(view, was, gate, h, waited[h].frame.author) || Repeats(was, h);
      }
      LosingOneRightly(view, gate, past, all, waited, gone, gone, allGone, h);
    }

    lemma DrainedTwice(was: set<Change>, meanwhile: set<Change>, now: set<Change>, waited: map<Change, Pending>,
                       still: map<Change, Pending>, waits: map<Change, Pending>, gone: set<Change>, more: set<Change>,
                       allGone: set<Change>, past: seq<Frame>, since: seq<Frame>, all: seq<Frame>)
      requires Drained(was, meanwhile, waited, still, gone, more, past, since)
      requires Drained(meanwhile, now, still, waits, more, allGone, since, all)
      ensures Drained(was, now, waited, waits, gone, allGone, past, all)
    {
      hide Refusable;
      forall h | h in allGone && h !in gone ensures h in waited && Refusable(view, gate, all, h, waited[h].frame.author) {
        if h in more {
          StaysRefusable(view, gate, since, all, h, waited[h].frame.author);
        }
      }
    }

    lemma FewerWait(waited: map<Change, Pending>, ready: set<Change>)
      requires ready != {} && ready <= waited.Keys
      ensures |waited - ready| < |waited|
    {
      assert |waited| == |waited.Keys| && |waited - ready| == |(waited - ready).Keys|;
      PartIsSmaller((waited - ready).Keys, waited.Keys);
    }

    lemma StillReady(was: set<Change>, h: Change)
      requires Ready(was, h) && was <= doc
      ensures Ready(doc, h)
    {
    }

    // How many orphans an author has waiting.
    method PendingBy(pubkey: string) returns (count: nat)
      ensures count == |Of(pending, pubkey)|
    {
      count := 0;
      var todo := pending.Keys;
      ghost var counted: set<Change> := {};
      while todo != {}
        invariant todo <= pending.Keys && count == |counted|
        invariant counted == set h | h in pending.Keys - todo && pending[h].frame.pubkey == pubkey
      {
        var h :| h in todo;
        todo := todo - {h};
        if pending[h].frame.pubkey == pubkey {
          count := count + 1;
          counted := counted + {h};
        }
      }
      assert counted == Of(pending, pubkey);
    }

    // An author's highest orphan, the latest to arrive among equals.
    method HighestOf(pubkey: string) returns (highest: Option<Change>)
      ensures highest == None <==> Of(pending, pubkey) == {}
      ensures highest.Some? ==> IsHighest(pending, pubkey, highest.value)
      ensures highest.Some? ==>
                && highest.value in pending && pending[highest.value].frame.pubkey == pubkey
                && forall k :: k in pending && pending[k].frame.pubkey == pubkey ==>
                     && pending[k].change.serial <= pending[highest.value].change.serial
                     && (pending[k].change.serial == pending[highest.value].change.serial ==>
                           pending[k].arrival <= pending[highest.value].arrival)
    {
      highest := None;
      var todo := pending.Keys;
      while todo != {}
        invariant todo <= pending.Keys
        invariant highest == None <==> forall k :: k in Of(pending, pubkey) ==> k in todo
        invariant highest.Some? ==>
                    && highest.value in Of(pending, pubkey)
                    && forall k :: k in Of(pending, pubkey) && k !in todo ==> Outranks(pending[highest.value], pending[k])
      {
        var h :| h in todo;
        assert h in Of(pending, pubkey) <==> pending[h].frame.pubkey == pubkey;
        todo := todo - {h};
        if pending[h].frame.pubkey == pubkey && (highest == None || !Outranks(pending[highest.value], pending[h])) {
          highest := Some(h);
        }
      }
    }

    // Turn an orphan away, and have its sender asked again.
    method Refuse(c: Change, frame: Frame)
      requires Sound({c})
      modifies `dropped, `lost
      ensures Sound({}) && dropped == old(dropped) + [frame.dedupKey] && lost == old(lost) + {c}
    {
      hide Documented, Parked, Bounded, GateHeld;
      dropped := dropped + [frame.dedupKey];
      lost := lost + {c};
    }

    // Give up a waiting orphan.
    method GiveUp(victim: Change, ghost inHand: set<Change>)
      requires Sound(inHand) && victim in pending
      modifies `pending, `dropped, `lost
      ensures Sound(inHand) && pending == old(pending) - {victim} && HasRoom(pending, victim.actor)
      ensures dropped == old(dropped) + [old(pending)[victim].frame.dedupKey] && lost == old(lost) + {victim}
    {
      hide Documented, Parked, Bounded, GateHeld, HasRoom, Of, Genesis;
      OwnedByItsActor(victim);
      MakingRoom(pending, pendingArrivals, victim.actor, victim);
      dropped := dropped + [pending[victim].frame.dedupKey];
      lost := lost + {victim};
      pending := pending - {victim};
    }

    // Take an orphan in.
    method Park(c: Change, frame: Frame)
      requires Sound({c}) && c !in pending && c !in doc && HasRoom(pending, c.actor)
      requires frame.change == Some(c) && frame.pubkey == c.actor
      modifies `pending, `pendingArrivals
      ensures Sound({}) && pending == old(pending)[c := Pending(frame, c, old(pendingArrivals) + 1)]
    {
      hide Documented, Parked, Bounded, GateHeld, HasRoom, Of, Genesis;
      MovingIn(pending, pendingArrivals, Pending(frame, c, pendingArrivals + 1));
      pendingArrivals := pendingArrivals + 1;
      pending := pending[c := Pending(frame, c, pendingArrivals)];
    }

    // Hold an orphan back, under its author's ceiling and the one over all.
    method BufferOrphan(c: Change, frame: Frame) returns (outcome: Ingested, ghost gone: seq<string>)
      requires Sound({c}) && NoneReady(doc, pending) && !Ready(doc, c) && c !in doc
      requires frame.change == Some(c) && frame.pubkey == c.actor
      modifies `pending, `pendingArrivals, `dropped, `lost
      ensures Valid() && dropped == old(dropped) + gone && old(lost) <= lost
      ensures Buffers(old(pending), pending, Pending(frame, c, old(pendingArrivals) + 1), gone, outcome)
      ensures outcome == Buffered || outcome == Ignored
      ensures gone == [] ==> lost == old(lost)
      ensures lost <= old(lost) + (old(pending).Keys + {c} - pending.Keys)
    {
      hide Ready, Buffers, Of, HasRoom, NoneReady, Sound;
      if c in pending {
        KnownIsBuffered(pending, Pending(frame, c, pendingArrivals + 1));
        NothingInHand(c);
        return Buffered, [];
      }
      var admitted;
      admitted, gone := AdmitOrphan(c, frame);
      if !admitted {
        StillNoneReady(old(pending), c, Pending(frame, c, pendingArrivals + 1));
        Refuse(c, frame);
        return Ignored, [frame.dedupKey];
      }
      StillNoneReady(old(pending), c, Pending(frame, c, pendingArrivals + 1));
      Park(c, frame);
      return Buffered, gone;
    }

    // The two ceilings: the author's own highest orphan may have to make room.
    method AdmitOrphan(c: Change, frame: Frame) returns (admitted: bool, ghost gone: seq<string>)
      requires Sound({c}) && c !in pending && frame.change == Some(c) && frame.pubkey == c.actor
      modifies `pending, `dropped, `lost
      ensures Sound({c}) && dropped == old(dropped) + gone && old(lost) <= lost && pending.Keys <= old(pending).Keys
      ensures gone == [] ==> lost == old(lost)
      ensures lost <= old(lost) + (old(pending).Keys - pending.Keys)
      ensures var entry := Pending(frame, c, pendingArrivals + 1);
              if admitted then HasRoom(pending, c.actor) &&
                  Buffers(old(pending), pending[c := entry], entry, gone, Buffered)
              else gone == [] && pending == old(pending) && Buffers(old(pending), pending, entry, [frame.dedupKey], Ignored)
    {
      hide Buffers, Of, IsHighest, HasRoom, Sound;
      var count := PendingBy(frame.pubkey);
      if count >= PENDING_AUTHOR_MAX {
        var victim := HighestOf(frame.pubkey);
        CeilingMet(pending, Pending(frame, c, pendingArrivals + 1), victim);
        FiledUnderItself(victim.value, frame.pubkey, {c});
        if c.serial >= pending[victim.value].change.serial {
          return false, [];
        }
        gone := [pending[victim.value].frame.dedupKey];
        GiveUp(victim.value, {c});
        return true, gone;
      }
      CeilingNotMet(pending, Pending(frame, c, pendingArrivals + 1));
      RoomIsRoom(frame.pubkey);
      return |pending| < PENDING_TOTAL_MAX, [];
    }

    // Take in one signed frame.
    method Ingest(frame: Frame) returns (outcome: Ingested, ghost gone: seq<string>)
      requires Valid()
      modifies this
      ensures Valid() && old(doc) <= doc && old(history) <= history && old(lost) <= lost
      ensures dropped == old(dropped) + gone
      ensures delivered == old(delivered) + if IsHonest(frame) then {frame.change.value} else {}
      ensures gate == None && NoEquivocation() && gone == [] ==> lost == old(lost)
      ensures gone == [] || (IsHonest(frame) && !Ready(old(doc), frame.change.value))
      ensures if !IsHonest(frame) then outcome == Ignored && doc == old(doc) && pending == old(pending)
              else if frame.change.value in old(doc) then outcome == Duplicate && doc == old(doc) &&
                  pending == old(pending)
              else if !Ready(old(doc), frame.change.value) then
                && doc == old(doc) && lost <= old(lost) + (old(pending).Keys + {frame.change.value} - pending.Keys)
                && Buffers(old(pending), pending, Pending(frame, frame.change.value, old(pendingArrivals) + 1), gone,
                    outcome)
              else if Forges(view, old(doc), gate, frame.change.value, frame.author) then
                && outcome == Rejected && doc == old(doc) && pending == old(pending)
                && lost == old(lost) + {frame.change.value}
              else if Repeats(old(doc), frame.change.value) then
                && outcome == Ignored && doc == old(doc) && pending == old(pending)
                && lost == old(lost) + {frame.change.value}
              else
                && outcome == Applied(view(old(doc)) != view(doc), view(doc))
                && frame.change.value in doc && doc <= old(doc) + old(pending).Keys + {frame.change.value}
                && old(history) + [frame] <= history
                && (forall h :: h in pending ==> h in old(pending) && pending[h] == old(pending)[h])
                && LostRightly(view, gate, history, old(pending), old(lost), lost)
      ensures Judged(frame, old(doc), outcome)
    {
      hide Documented, Parked, Bounded, GateHeld, Buffers, Forges, Ready, Repeats, Unrepeated, LostRightly, Drained, Judged;
      IsJudged(frame);
      gone := [];
      if frame.change == None {
        return Ignored, [];
      }
      var c := frame.change.value;
      if c.actor != frame.pubkey {
        return Ignored, [];
      }
      DocIsHistory();
      delivered := delivered + {c};
      if c in applied {
        return Duplicate, [];
      }
      if !Ready(applied, c) {
        outcome, gone := BufferOrphan(c, frame);
        return outcome, gone;
      }
      ReadyIsNotWaiting(c);
      UngatedRejectsNothing(c, frame.author);
      var before := view(doc);
      if Forges(view, doc, gate, c, frame.author) {
        lost := lost + {c};
        return Rejected, [];
      }
      NoneRefused(c);
      var ok := ApplyAndDrain(c, frame);
      if !ok {
        return Ignored, [];
      }
      var after := view(doc);
      return Applied(before != after, after), [];
    }

    // What is made of a frame, by the document it meets: nothing of one that carries no change of its signer's
    // own; a change whose dependencies are all there is applied unless it is known, its number is taken or it
    // moves another's guarded field; one that lacks a dependency waits or is turned away.
    ghost predicate Judged(frame: Frame, was: set<Change>, outcome: Ingested) {
      if frame.change == None || frame.change.value.actor != frame.pubkey then outcome == Ignored
      else
        var c := frame.change.value;
        if c in was then outcome == Duplicate
        else if exists d :: d in c.deps && d !in was then outcome == Buffered || outcome == Ignored
        else if exists d :: d in was && d.actor == c.actor && d.serial == c.serial && d != c then
          outcome == if gate.Some? then Rejected else Ignored
        else if gate.Some? && MovesAnothers(was, c, frame.author) then outcome == Rejected
        else outcome.Applied?
    }

    ghost predicate MovesAnothers(was: set<Change>, c: Change, author: string)
      requires gate.Some?
    {
      exists nick :: nick != author && Guarded(view, was + {c}, gate.value, nick) != Guarded(view, was, gate.value, nick)
    }

    lemma IsJudged(frame: Frame)
      ensures !IsHonest(frame) ==> Judged(frame, doc, Ignored)
      ensures IsHonest(frame) ==>
                var c := frame.change.value;
                && (c in doc ==> Judged(frame, doc, Duplicate))
                && (c !in doc && !Ready(doc, c) ==> Judged(frame, doc, Buffered) && Judged(frame, doc, Ignored))
                && (c !in doc && Ready(doc, c) && Forges(view, doc, gate, c, frame.author) ==> Judged(frame, doc, Rejected))
                && (c !in doc && Ready(doc, c) && !Forges(view, doc, gate, c, frame.author) ==>
                      if Repeats(doc, c) then Judged(frame, doc, Ignored)
                      else forall changed, now :: Judged(frame, doc, Applied(changed, now)))
    {
      hide Guarded, Forges;
      if IsHonest(frame) {
        ForgesWhen(view, doc, gate, frame.change.value, frame.author);
      }
    }

    // Apply a change, and whatever waited for it.
    method ApplyAndDrain(c: Change, frame: Frame) returns (ok: bool)
      requires Sound({c}) && NoneReady(doc, pending) && frame.change == Some(c)
      requires c !in doc && c !in pending && Ready(doc, c) && !Forges(view, doc, gate, c, frame.author)
      modifies `doc, `applied, `frames, `history, `lost, `pending
      ensures Valid() && ok == !Repeats(old(doc), c)
      ensures !ok ==> doc == old(doc) && pending == old(pending) && history == old(history) && lost == old(lost) + {c}
      ensures ok ==>
                && old(doc) + {c} <= doc <= old(doc) + old(pending).Keys + {c} && old(history) + [frame] <= history
                && (forall h :: h in pending ==> h in old(pending) && pending[h] == old(pending)[h])
                && old(lost) <= lost && LostRightly(view, gate, history, old(pending), old(lost), lost)
                && (gate == None && NoEquivocation() ==> lost == old(lost))
    {
      hide Documented, Parked, Bounded, Accounted, GateHeld, Forges, Ready, Repeats, Unrepeated, LostRightly, Drained;
      ok := Apply(c, frame);
      if ok {
        ghost var was, waited, losses, past := doc, pending, lost, history;
        DrainPending();
        WhatDrained(was, doc, waited, pending, losses, lost, past, history);
      }
    }

    lemma WhatDrained(was: set<Change>, now: set<Change>, waited: map<Change, Pending>, waits: map<Change, Pending>,
                      gone: set<Change>, allGone: set<Change>, past: seq<Frame>, all: seq<Frame>)
      requires Drained(was, now, waited, waits, gone, allGone, past, all)
      ensures was <= now <= was + waited.Keys && gone <= allGone && past <= all
      ensures forall h :: h in waits ==> h in waited && waits[h] == waited[h]
      ensures LostRightly(view, gate, all, waited, gone, allGone)
    {
    }

    lemma UngatedRejectsNothing(c: Change, author: string)
      ensures gate == None ==> !Forges(view, doc, gate, c, author)
    {
    }

    lemma ReadyIsNotWaiting(c: Change)
      requires NoneReady(doc, pending) && Ready(doc, c)
      ensures c !in pending
    {
    }

    lemma OwnedByItsActor(h: Change)
      requires Parked(pending, pendingArrivals) && h in pending
      ensures h in Of(pending, h.actor)
    {
    }

    lemma StillNoneReady(before: map<Change, Pending>, c: Change, entry: Pending)
      requires NoneReady(doc, before) && !Ready(doc, c) && pending.Keys <= before.Keys
      ensures NoneReady(doc, pending) && NoneReady(doc, pending[c := entry])
    {
    }

    lemma NothingInHand(c: Change)
      requires Sound({c}) && c in pending
      ensures Sound({})
    {
    }

    lemma FiledUnderItself(h: Change, pubkey: string, inHand: set<Change>)
      requires Sound(inHand) && h in Of(pending, pubkey)
      ensures h.actor == pubkey && pending[h].change == h
    {
    }

    lemma RoomIsRoom(pubkey: string)
      ensures HasRoom(pending, pubkey) <==> |Of(pending, pubkey)| < PENDING_AUTHOR_MAX && |pending| < PENDING_TOTAL_MAX
    {
    }
  }

  lemma KnownIsBuffered(before: map<Change, Pending>, entry: Pending)
    requires entry.change in before
    ensures Buffers(before, before, entry, [], Buffered)
  {
  }

  // An author at its ceiling has a highest orphan, and it decides.
  lemma CeilingMet(before: map<Change, Pending>, entry: Pending, victim: Option<Change>)
    requires entry.change !in before && |Of(before, entry.frame.pubkey)| >= PENDING_AUTHOR_MAX
    requires victim == None <==> Of(before, entry.frame.pubkey) == {}
    requires victim.Some? ==> IsHighest(before, entry.frame.pubkey, victim.value)
    ensures victim.Some? && victim.value in before && victim.value in Of(before, entry.frame.pubkey)
    ensures entry.change.serial >= victim.value.serial ==>
        Buffers(before, before, entry, [entry.frame.dedupKey], Ignored)
    ensures entry.change.serial < victim.value.serial ==>
              Buffers(before, (before - {victim.value})[entry.change := entry], entry,
                  [before[victim.value].frame.dedupKey], Buffered)
  {
  }

  lemma CeilingNotMet(before: map<Change, Pending>, entry: Pending)
    requires entry.change !in before && |Of(before, entry.frame.pubkey)| < PENDING_AUTHOR_MAX
    ensures |before| >= PENDING_TOTAL_MAX ==> Buffers(before, before, entry, [entry.frame.dedupKey], Ignored)
    ensures |before| < PENDING_TOTAL_MAX ==> Buffers(before, before[entry.change := entry], entry, [], Buffered)
  {
  }
}
