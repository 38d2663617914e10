/** Putting multipart bodies back together under byte budgets
    (crates/fofoca-protocol/src/reassembly.rs, .../src/message/shard.rs, crates/fofoca-util/src/consts.rs). */
module Reassembly {
  import opened Collections
  import opened Options

  const MAX_LOGICAL_BODY_BYTES: nat := 64 * 1024 * 1024
  const GROUP_MAX_BYTES: nat := 2 * MAX_LOGICAL_BODY_BYTES
  const AUTHOR_BUDGET_BYTES: nat := 3 * MAX_LOGICAL_BODY_BYTES
  const TOTAL_BUDGET_BYTES: nat := 6 * MAX_LOGICAL_BODY_BYTES
  const STALE_SECS: nat := 300
  const MAX_GROUP_LIFETIME_SECS: nat := 3600
  const SLOT_OVERHEAD_BYTES: nat := 512
  const SLOT_MIN_CHARGE_BYTES: nat := 2048
  const REPAIR_IDLE_SECS: nat := 60
  const REPAIR_MAX_IDXS: nat := 64
  const LOGGED_SHARD_GROUP_MAX_TOTAL: nat := 16
  const MAX_SHARD_TOTAL: nat := 65_536

  // ---- Messages ----

  // A control character other than a tab, a newline or a return has no place in a body.
  predicate IsCleanChar(c: char) {
    var u := c as int;
    (32 <= u < 127 || 160 <= u) || c == '\t' || c == '\n' || c == '\r'
  }

  predicate IsClean(s: string) {
    forall c :: c in s ==> IsCleanChar(c)
  }

  type MessageBody = s: string | IsClean(s)

  // Bodies are weighed in UTF-8.
  function ByteLength(s: string): nat {
    if s == [] then 0
    else
      var u := s[0] as int;
      (if u < 0x80 then 1 else if u < 0x800 then 2 else if u < 0x1_0000 then 3 else 4) + ByteLength(s[1..])
  }

  // Where a message belongs in a body that was split. Headers off the wire that break the bounds are
  // refused before they get here.
  datatype ShardHeader = ShardHeader(group: string, idx: nat, total: nat)

  type Shard = s: ShardHeader | 2 <= s.total <= MAX_SHARD_TOTAL && s.idx < s.total witness ShardHeader("", 0, 2)

  // `rest` is the mesh, the time, the addressee and the correlation, which nothing here looks at.
  datatype Message = Message(id: string, pubkey: string, author: string, kind: string, body: MessageBody,
      shard: Option<Shard>,
                             serial: Option<nat>, prev: Option<string>, parents: seq<string>, rest: string)

  // The charge for a shard: its body and a fixed overhead.
  function SlotCharge(body: string): nat {
    var charge := ByteLength(body) + SLOT_OVERHEAD_BYTES;
    if charge < SLOT_MIN_CHARGE_BYTES then SLOT_MIN_CHARGE_BYTES else charge
  }

  lemma ChargeIs(body: string)
    ensures SlotCharge(body) >= 2048 && SlotCharge(body) >= ByteLength(body) + 512
    ensures SlotCharge(body) == 2048 || SlotCharge(body) == ByteLength(body) + 512
  {
  }

  // Characters weigh one to four bytes, by where they stand, and weights add up.
  lemma {:induction false} WeightsAddUp(s: string, t: string)
    ensures ByteLength(s + t) == ByteLength(s) + ByteLength(t)
    ensures forall c: char :: ByteLength([c]) ==
              if c as int <= 0x7f then 1 else if c as int <= 0x7ff then 2 else if c as int <= 0xffff then 3 else 4
    decreases |s|
  {
    if s == [] {
      assert s + t == t;
    } else {
      assert (s + t)[1..] == s[1..] + t;
      WeightsAddUp(s[1..], t);
    }
  }

  // ---- Sums over tables ----

  ghost function Sum<K>(m: map<K, nat>): nat
    decreases |m|
  {
    if m == map[] then 0
    else
      var k :| k in m;
      m[k] + Sum(m - {k})
  }

  lemma {:induction false} SumWithout<K>(m: map<K, nat>, k: K)
    requires k in m
    ensures Sum(m) == m[k] + Sum(m - {k})
    decreases |m|
  {
    var k0 :| k0 in m && Sum(m) == m[k0] + Sum(m - {k0});
    if k0 != k {
      SumWithout(m - {k0}, k);
      SumWithout(m - {k}, k0);
      assert m - {k0} - {k} == m - {k} - {k0};
    }
  }

  lemma SumWith<K>(m: map<K, nat>, k: K, v: nat)
    ensures Sum(m[k := v]) == Sum(m) - (if k in m then m[k] else 0) + v
  {
    SumWithout(m[k := v], k);
    assert m[k := v] - {k} == m - {k};
    if k in m {
      SumWithout(m, k);
    } else {
      assert m - {k} == m;
    }
  }

  // ---- What has arrived, and what it adds up to ----

  datatype Key = Key(pubkey: string, group: string)

  // The bodies that have arrived, by index: the first to arrive of each.
  function SlotsOf(arrived: seq<Message>): map<nat, MessageBody>
    requires forall m :: m in arrived ==> m.shard.Some?
  {
    if arrived == [] then map[]
    else
      var before, m := SlotsOf(arrived[..|arrived| - 1]), arrived[|arrived| - 1];
      if m.shard.value.idx in before then before else before[m.shard.value.idx := m.body]
  }

  // One author's shards of one body, agreeing on what it is.
  ghost predicate Stream(arrived: seq<Message>, key: Key, total: nat, kind: string) {
    forall m :: m in arrived ==>
      && m.shard.Some? && m.pubkey == key.pubkey && m.shard.value.group == key.group
      && m.shard.value.total == total && m.kind == kind
  }

  ghost predicate HasArrived(arrived: seq<Message>, idx: nat) {
    exists n :: 0 <= n < |arrived| && arrived[n].shard.Some? && arrived[n].shard.value.idx == idx
  }

  // The body of the first of them at an index.
  ghost predicate IsFirst(arrived: seq<Message>, idx: nat, n: int) {
    && 0 <= n < |arrived| && arrived[n].shard.Some? && arrived[n].shard.value.idx == idx
    && forall m :: 0 <= m < n ==> arrived[m].shard.Some? && arrived[m].shard.value.idx != idx
  }

  lemma NotThere(arrived: seq<Message>, idx: nat)
    requires (forall m :: m in arrived ==> m.shard.Some?) && !HasArrived(arrived, idx)
    ensures forall n :: 0 <= n < |arrived| ==> arrived[n].shard.Some? && arrived[n].shard.value.idx != idx
  {
  }

  lemma {:induction false} FirstSeenWins(arrived: seq<Message>, idx: nat)
    requires forall m :: m in arrived ==> m.shard.Some?
    ensures idx in SlotsOf(arrived) <==> HasArrived(arrived, idx)
    ensures idx in SlotsOf(arrived) ==> exists n :: IsFirst(arrived, idx, n) && SlotsOf(arrived)[idx] == arrived[n].body
  {
    if arrived != [] {
      var k := |arrived| - 1;
      var before := arrived[..k];
      FirstSeenWins(before, idx);
      if idx in SlotsOf(before) {
        var n :| IsFirst(before, idx, n) && SlotsOf(before)[idx] == before[n].body;
        assert IsFirst(arrived, idx, n);
      } else if arrived[k].shard.value.idx == idx {
        assert forall m :: 0 <= m < k ==> arrived[m] == before[m];
        NotThere(before, idx);
        assert IsFirst(arrived, idx, k);
      } else {
        assert forall m :: 0 <= m < k ==> arrived[m] == before[m];
      }
    }
  }

  // Pigeonhole: with every index below `total`, there are `total` of them exactly when none is missing.
  lemma {:induction false} CountIsFull(slots: set<nat>, total: nat)
    requires forall i :: i in slots ==> i < total
    ensures |slots| <= total
    ensures |slots| == total <==> forall i :: 0 <= i < total ==> i in slots
    decreases total
  {
    if total > 0 {
      var rest := slots - {total - 1};
      CountIsFull(rest, total - 1);
      assert total - 1 !in slots ==> rest == slots;
      forall i | 0 <= i < total - 1 ensures i in slots <==> i in rest {}
    } else {
      assert slots == {};
    }
  }

  // The bodies in index order, run together.
  function Joined(slots: map<nat, MessageBody>, total: nat): (body: string)
    ensures IsClean(body)
  {
    if total == 0 then "" else Joined(slots, total - 1) + if total - 1 in slots then slots[total - 1] else ""
  }

  // A body cut into one piece per index: each the body of the first shard that came with that index.
  ghost predicate IsCut(cuts: seq<nat>, body: string, total: nat, arrived: seq<Message>) {
    && |cuts| == total + 1 && cuts[0] == 0 && cuts[total] == |body|
    && forall i :: 0 <= i < total ==> IsPiece(cuts, body, i, arrived)
  }

  ghost predicate IsPiece(cuts: seq<nat>, body: string, i: nat, arrived: seq<Message>)
    requires i + 1 < |cuts|
  {
    && cuts[i] <= cuts[i + 1] <= |body|
    && exists n :: IsFirst(arrived, i, n) && body[cuts[i]..cuts[i + 1]] == arrived[n].body
  }

  // With every index there, the joined body falls into those pieces, in index order.
  lemma {:induction false} JoinedIsCut(arrived: seq<Message>, total: nat) returns (cuts: seq<nat>)
    requires (forall m :: m in arrived ==> m.shard.Some?) && forall i :: 0 <= i < total ==> HasArrived(arrived, i)
    ensures IsCut(cuts, Joined(SlotsOf(arrived), total), total, arrived)
    decreases total
  {
    if total == 0 {
      cuts := [0];
    } else {
      var before := JoinedIsCut(arrived, total - 1);
      var body := Joined(SlotsOf(arrived), total);
      cuts := before + [|body|];
      hide IsFirst;
      FirstSeenWins(arrived, total - 1);
      assert Joined(SlotsOf(arrived), total - 1) <= body;
      forall i | 0 <= i < total ensures IsPiece(cuts, body, i, arrived) {
        if i < total - 1 {
          assert IsPiece(before, Joined(SlotsOf(arrived), total - 1), i, arrived);
          assert body[cuts[i]..cuts[i + 1]] == Joined(SlotsOf(arrived), total - 1)[before[i]..before[i + 1]];
        }
      }
    }
  }

  // Two streams of the same shards fill the same slots, whatever order and however often they came in,
  // as long as their author signed one body per index.
  lemma ArrivalOrderDoesNotMatter(one: seq<Message>, other: seq<Message>)
    requires forall m :: m in one ==> m.shard.Some?
    requires forall m :: m in one <==> m in other
    requires forall m, n :: m in one && n in one && m.shard.value.idx == n.shard.value.idx ==> m.body == n.body
    ensures SlotsOf(one) == SlotsOf(other)
  {
    hide SlotsOf;
    forall idx ensures idx in SlotsOf(one) <==> idx in SlotsOf(other)
               ensures idx in SlotsOf(one) ==> SlotsOf(one)[idx] == SlotsOf(other)[idx]
    {
      FirstSeenWins(one, idx);
      FirstSeenWins(other, idx);
      if idx in SlotsOf(one) && idx in SlotsOf(other) {
        var n, m :| IsFirst(one, idx, n) && SlotsOf(one)[idx] == one[n].body
                 && IsFirst(other, idx, m) && SlotsOf(other)[idx] == other[m].body;
        assert one[n] in one && other[m] in one;
      }
      if HasArrived(one, idx) {
        var n :| 0 <= n < |one| && one[n].shard.value.idx == idx;
        assert one[n] in other;
        var m :| 0 <= m < |other| && other[m] == one[n];
      }
      if HasArrived(other, idx) {
        var n :| 0 <= n < |other| && other[n].shard.value.idx == idx;
        assert other[n] in one;
        var m :| 0 <= m < |one| && one[m] == other[n];
      }
    }
  }

  // ---- The store ----

  datatype PartialGroup = PartialGroup(total: nat, kind: string, author: string, slots: map<nat, MessageBody>,
                                       header: Option<Message>, bytes: nat, lastSeen: int, createdAt: int,
                                       lastRepair: Option<int>)
  {
    predicate IsComplete() {
      |slots| == total
    }
  }

  datatype ShardIngest = Buffered | Complete(message: Message) | Dropped

  datatype RepairTicket = RepairTicket(author: string, group: string, missing: seq<nat>)

  // Whole seconds between two instants, counted in nanoseconds; none if the second is earlier.
  function SecondsSince(now: int, before: int): nat {
    if now >= before then (now - before) / 1_000_000_000 else 0
  }

  function SatSub(a: nat, b: nat): nat {
    if a >= b then a - b else 0
  }

  // The logical message: the first shard's envelope round the whole body, under the group's id.
  function SynthesizeFrom(envelope: Message, body: MessageBody, group: string): Message {
    envelope.(id := group, body := body, shard := None, serial := None, prev := None, parents := [])
  }

  function Opened(m: Message, shard: Shard, now: int): PartialGroup {
    PartialGroup(shard.total, m.kind, m.author, map[], None, 0, now, now, None)
  }

  function Filled(g: PartialGroup, m: Message, shard: Shard, now: int): PartialGroup {
    g.(lastSeen := now, bytes := g.bytes + SlotCharge(m.body), slots := g.slots[shard.idx := m.body],
       header := if shard.idx == 0 then Some(m) else g.header)
  }

  ghost function Charges(slots: map<nat, MessageBody>): map<nat, nat> {
    map i | i in slots :: SlotCharge(slots[i])
  }

  // What a group is, given the shards that have arrived for it: their first-seen bodies by index, what
  // those cost, and the first message at index 0.
  ghost predicate Accounts(key: Key, g: PartialGroup, arrived: seq<Message>) {
    && 2 <= g.total && Stream(arrived, key, g.total, g.kind)
    && g.slots == SlotsOf(arrived)
    && g.bytes == Sum(Charges(g.slots))
    && (g.header == None <==> 0 !in g.slots)
    && (g.header.Some? ==> exists n :: IsFirst(arrived, 0, n) && g.header.value == arrived[n])
  }

  // A group kept is one under way: begun, not finished, and within its ceiling.
  ghost predicate UnderWay(key: Key, g: PartialGroup, arrived: seq<Message>) {
    Accounts(key, g, arrived) && g.slots != map[] && !g.IsComplete() && g.bytes <= GROUP_MAX_BYTES
  }

  lemma FillingAccounts(key: Key, g: PartialGroup, arrived: seq<Message>, m: Message, now: int)
    requires Accounts(key, g, arrived)
    requires m.shard.Some? && Stream([m], key, g.total, g.kind) && m.shard.value.idx !in g.slots
    ensures Accounts(key, Filled(g, m, m.shard.value, now), arrived + [m])
  {
    hide IsFirst, Sum, Charges, Stream, HasArrived, SlotsOf;
    StreamGrows(arrived, m, key, g.total, g.kind);
    SlotsGrow(arrived, m);
    FillingHeader(g, arrived, m);
    FillingBytes(g.slots, m.shard.value.idx, m.body);
  }

  lemma SlotsGrow(arrived: seq<Message>, m: Message)
    requires (forall x :: x in arrived ==> x.shard.Some?) && m.shard.Some?
    ensures forall x :: x in arrived + [m] ==> x.shard.Some?
    ensures m.shard.value.idx !in SlotsOf(arrived) ==>
              SlotsOf(arrived + [m]) == SlotsOf(arrived)[m.shard.value.idx := m.body]
  {
    assert (arrived + [m])[..|arrived|] == arrived;
  }

  lemma StreamGrows(arrived: seq<Message>, m: Message, key: Key, total: nat, kind: string)
    requires Stream(arrived, key, total, kind) && Stream([m], key, total, kind)
    ensures Stream(arrived + [m], key, total, kind) && m.shard.value.total == total
    ensures forall x :: x in arrived + [m] ==> x.shard.Some?
  {
    assert m in [m];
    forall x | x in arrived + [m] ensures x in arrived || x in [m] {}
  }

  lemma FillingBytes(slots: map<nat, MessageBody>, idx: nat, body: MessageBody)
    requires idx !in slots
    ensures Sum(Charges(slots[idx := body])) == Sum(Charges(slots)) + SlotCharge(body)
  {
    SumWith(Charges(slots), idx, SlotCharge(body));
    assert Charges(slots[idx := body]) == Charges(slots)[idx := SlotCharge(body)];
  }

  // The header stays the first message at index 0.
  lemma FillingHeader(g: PartialGroup, arrived: seq<Message>, m: Message)
    requires (forall x :: x in arrived ==> x.shard.Some?) && m.shard.Some? && g.slots == SlotsOf(arrived)
    requires g.header.Some? ==> exists n :: IsFirst(arrived, 0, n) && g.header.value == arrived[n]
    requires m.shard.value.idx !in g.slots
    ensures var header := if m.shard.value.idx == 0 then Some(m) else g.header;
            header.Some? ==> exists n :: IsFirst(arrived + [m], 0, n) && header.value == (arrived + [m])[n]
  {
    var more := arrived + [m];
    if m.shard.value.idx == 0 {
      FirstSeenWins(arrived, 0);
      NotThere(arrived, 0);
      assert IsFirst(more, 0, |arrived|);
    } else if g.header.Some? {
      var n :| IsFirst(arrived, 0, n) && g.header.value == arrived[n];
      assert IsFirst(more, 0, n);
    }
  }

  // A shard that fills no slot changes nothing that counts.
  lemma RepeatAccounts(key: Key, g: PartialGroup, arrived: seq<Message>, m: Message)
    requires Accounts(key, g, arrived)
    requires m.shard.Some? && Stream([m], key, g.total, g.kind) && m.shard.value.idx in g.slots
    ensures Accounts(key, g, arrived + [m])
  {
  }

  // A group is complete exactly when every index has arrived.
  lemma CompleteWhen(key: Key, g: PartialGroup, arrived: seq<Message>)
    requires Accounts(key, g, arrived)
    ensures g.IsComplete() <==> forall i :: 0 <= i < g.total ==> HasArrived(arrived, i)
    ensures g.IsComplete() ==> g.header.Some?
    ensures forall i :: i in g.slots ==> i < g.total
  {
    forall i ensures i in g.slots <==> HasArrived(arrived, i) {
      FirstSeenWins(arrived, i);
    }
    forall i | i in g.slots ensures i < g.total {
      var n :| 0 <= n < |arrived| && arrived[n].shard.Some? && arrived[n].shard.value.idx == i;
      assert arrived[n] in arrived;
    }
    CountIsFull(g.slots.Keys, g.total);
    assert |g.slots| == |g.slots.Keys|;
  }

  // ---- Books ----

  ghost function Weights(groups: map<Key, PartialGroup>): map<Key, nat> {
    map k | k in groups :: groups[k].bytes
  }

  ghost function WeightsOf(groups: map<Key, PartialGroup>, pubkey: string): map<Key, nat> {
    map k | k in groups && k.pubkey == pubkey :: groups[k].bytes
  }

  function Charged(authorBytes: map<string, nat>, pubkey: string): nat {
    if pubkey in authorBytes then authorBytes[pubkey] else 0
  }

  // The counters say exactly what is buffered, in all and for each author, and list no author in vain.
  ghost predicate Balanced(groups: map<Key, PartialGroup>, authorBytes: map<string, nat>, totalBytes: nat) {
    && totalBytes == Sum(Weights(groups))
    && (forall a :: Charged(authorBytes, a) == Sum(WeightsOf(groups, a)))
    && (forall a :: a in authorBytes ==> authorBytes[a] > 0)
  }

  lemma RemovingBalances(groups: map<Key, PartialGroup>, key: Key, a: string)
    requires key in groups
    ensures Sum(Weights(groups - {key})) == Sum(Weights(groups)) - groups[key].bytes
    ensures Sum(WeightsOf(groups - {key}, a)) == Sum(WeightsOf(groups, a)) - if a == key.pubkey then groups[key].bytes
        else 0
  {
    SumWithout(Weights(groups), key);
    assert Weights(groups - {key}) == Weights(groups) - {key};
    if a == key.pubkey {
      SumWithout(WeightsOf(groups, a), key);
      assert WeightsOf(groups - {key}, a) == WeightsOf(groups, a) - {key};
    } else {
      assert WeightsOf(groups - {key}, a) == WeightsOf(groups, a);
    }
  }

  lemma PuttingBalances(groups: map<Key, PartialGroup>, key: Key, g: PartialGroup, a: string)
    ensures var grown := g.bytes - if key in groups then groups[key].bytes else 0;
            && Sum(Weights(groups[key := g])) == Sum(Weights(groups)) + grown
            && Sum(WeightsOf(groups[key := g], a)) == Sum(WeightsOf(groups, a)) + if a == key.pubkey then grown else 0
  {
    hide Sum;
    PuttingWeighs(groups, key, g);
    PuttingWeighsFor(groups, key, g, a);
  }

  lemma PuttingWeighs(groups: map<Key, PartialGroup>, key: Key, g: PartialGroup)
    ensures Sum(Weights(groups[key := g])) == Sum(Weights(groups)) + g.bytes - if key in groups then groups[key].bytes
        else 0
  {
    hide Sum;
    SumWith(Weights(groups), key, g.bytes);
    assert Weights(groups[key := g]) == Weights(groups)[key := g.bytes];
  }

  lemma PuttingWeighsFor(groups: map<Key, PartialGroup>, key: Key, g: PartialGroup, a: string)
    ensures Sum(WeightsOf(groups[key := g], a))
         == Sum(WeightsOf(groups, a)) + if a == key.pubkey then g.bytes -
             (if key in groups then groups[key].bytes else 0) else 0
  {
    hide Sum;
    if a == key.pubkey {
      SumWith(WeightsOf(groups, a), key, g.bytes);
      assert WeightsOf(groups[key := g], a) == WeightsOf(groups, a)[key := g.bytes];
    } else {
      assert WeightsOf(groups[key := g], a) == WeightsOf(groups, a);
    }
  }

  // What a group takes up is on the books, in all and under its author.
  lemma OnTheBooks(groups: map<Key, PartialGroup>, authorBytes: map<string, nat>, totalBytes: nat, key: Key)
    requires Balanced(groups, authorBytes, totalBytes) && key in groups
    ensures groups[key].bytes <= totalBytes && groups[key].bytes <= Charged(authorBytes, key.pubkey)
    ensures forall a :: a in authorBytes ==> authorBytes[a] > 0
  {
    hide Sum;
    RemovingBalances(groups, key, key.pubkey);
  }

  // Taken off both, the books still balance.
  lemma EvictingBalances(groups: map<Key, PartialGroup>, authorBytes: map<string, nat>, totalBytes: nat, key: Key,
                         left: map<string, nat>)
    requires Balanced(groups, authorBytes, totalBytes) && key in groups && groups[key].bytes <= totalBytes
    requires forall a :: a in left ==> left[a] > 0
    requires forall a :: Charged(left, a) == Charged(authorBytes, a) - if a == key.pubkey then groups[key].bytes else 0
    ensures Balanced(groups - {key}, left, totalBytes - groups[key].bytes)
  {
    hide Sum;
    RemovingBalances(groups, key, key.pubkey);
    forall a ensures Charged(left, a) == Sum(WeightsOf(groups - {key}, a)) {
      RemovingBalances(groups, key, a);
    }
  }

  lemma FewerLeft<K, V>(m: map<K, V>, k: K)
    requires k in m
    ensures |m - {k}| < |m|
  {
  }

  ghost predicate Within<K, V>(now: map<K, V>, before: map<K, V>) {
    forall k :: k in now ==> k in before && now[k] == before[k]
  }

  // Making room may only have cost the author's other groups, stalest first.
  ghost predicate Yielded(before: map<Key, PartialGroup>, now: map<Key, PartialGroup>, except: Key) {
    && Within(now, before)
    && (forall k :: k in before && k !in now ==> k.pubkey == except.pubkey && k != except)
    && forall k, j :: k in before && k !in now && j in now && j.pubkey == except.pubkey && j != except ==>
         before[k].lastSeen <= before[j].lastSeen
  }

  lemma YieldingOne(before: map<Key, PartialGroup>, now: map<Key, PartialGroup>, arrived: map<Key, seq<Message>>,
                    nowArrived: map<Key, seq<Message>>, except: Key, victim: Key)
    requires Yielded(before, now, except) && Within(nowArrived, arrived)
    requires victim in now && victim.pubkey == except.pubkey && victim != except
    requires forall j :: j in now && j.pubkey == except.pubkey && j != except ==> now[victim].lastSeen <= now[j].lastSeen
    ensures Yielded(before, now - {victim}, except) && Within(nowArrived - {victim}, arrived)
    ensures victim in before && before[victim] == now[victim]
  {
  }

  // The charge now fits the author's budget, and each group given up was given up because it did not.
  ghost predicate InNeed(before: map<Key, PartialGroup>, now: map<Key, PartialGroup>, owedBefore: nat, owed: nat,
                         charge: nat) {
    && owed + charge <= AUTHOR_BUDGET_BYTES
    && (owedBefore + charge <= AUTHOR_BUDGET_BYTES ==> now == before)
    && (now != before ==>
          exists k :: k in before && k !in now && owed + before[k].bytes + charge > AUTHOR_BUDGET_BYTES)
  }

  lemma YieldingInNeed(before: map<Key, PartialGroup>, now: map<Key, PartialGroup>, except: Key, victim: Key,
                       owedBefore: nat, owed: nat, charge: nat)
    requires Yielded(before, now, except) && victim in now && owed <= owedBefore
    requires owed + charge > AUTHOR_BUDGET_BYTES && before[victim].bytes <= owed
    ensures var left := owed - before[victim].bytes;
            left + charge <= AUTHOR_BUDGET_BYTES ==> InNeed(before, now - {victim}, owedBefore, left, charge)
  {
  }

  // Whose group the author's bytes are when it is the only one left.
  lemma OnlyGroupLeft(groups: map<Key, PartialGroup>, key: Key)
    requires forall k :: k in groups && k.pubkey == key.pubkey ==> k == key
    ensures Sum(WeightsOf(groups, key.pubkey)) == if key in groups then groups[key].bytes else 0
  {
    var w := WeightsOf(groups, key.pubkey);
    if key in groups {
      SumWithout(w, key);
      assert w - {key} == map[];
    } else {
      assert w == map[];
    }
  }

  lemma BytesAreOwed(key: Key, g: PartialGroup, arrived: seq<Message>)
    requires UnderWay(key, g, arrived)
    ensures g.bytes >= SLOT_MIN_CHARGE_BYTES
  {
  }

  ghost predicate AllUnderWay(groups: map<Key, PartialGroup>, arrived: map<Key, seq<Message>>) {
    forall k :: k in groups ==> k in arrived && UnderWay(k, groups[k], arrived[k])
  }

  ghost predicate WithinBudget(authorBytes: map<string, nat>, totalBytes: nat) {
    totalBytes <= TOTAL_BUDGET_BYTES && forall a :: Charged(authorBytes, a) <= AUTHOR_BUDGET_BYTES
  }

  // Putting a group back with one more shard's bytes on the books.
  lemma FillingBalances(groups: map<Key, PartialGroup>, authorBytes: map<string, nat>, totalBytes: nat, key: Key,
                        g: PartialGroup, charge: nat)
    requires Balanced(groups, authorBytes, totalBytes) && charge > 0
    requires g.bytes == charge + if key in groups then groups[key].bytes else 0
    ensures Balanced(groups[key := g], authorBytes[key.pubkey := Charged(authorBytes, key.pubkey) + charge],
        totalBytes + charge)
  {
    hide Sum;
    PuttingBalances(groups, key, g, key.pubkey);
    var more := authorBytes[key.pubkey := Charged(authorBytes, key.pubkey) + charge];
    forall a ensures Charged(more, a) == Sum(WeightsOf(groups[key := g], a)) {
      PuttingBalances(groups, key, g, a);
    }
  }

  function At<V>(m: map<Key, V>, key: Key): Option<V> {
    if key in m then Some(m[key]) else None
  }

  ghost function Past(arrived: map<Key, seq<Message>>, key: Key): seq<Message> {
    if key in arrived then arrived[key] else []
  }

  // The shard was the last one missing, and the message is made of the first-seen shard of every index:
  // the first one's envelope, all bodies in index order.
  ghost predicate CompletedBy(past: seq<Message>, m: Message, shard: Shard, logical: Message) {
    var all := past + [m];
    && (forall x :: x in all ==> x.shard.Some?)
    && !HasArrived(past, shard.idx) && (forall i :: 0 <= i < shard.total ==> HasArrived(all, i))
    && exists n :: IsFirst(all, 0, n) &&
        logical == SynthesizeFrom(all[n], Joined(SlotsOf(all), shard.total), shard.group)
  }

  // A whole body under the envelope of the first shard at index 0, out of the shards' own chain.
  ghost predicate IsWhole(logical: Message, shard: Shard, arrived: seq<Message>) {
    && (exists cuts :: IsCut(cuts, logical.body, shard.total, arrived))
    && logical.id == shard.group && logical.shard == None
    && logical.serial == None && logical.prev == None && logical.parents == []
    && exists n :: IsFirst(arrived, 0, n) && logical.pubkey == arrived[n].pubkey && logical.author == arrived[n].author
         && logical.kind == arrived[n].kind && logical.rest == arrived[n].rest
  }

  lemma CompletedIsWhole(past: seq<Message>, m: Message, shard: Shard, logical: Message)
    requires CompletedBy(past, m, shard, logical)
    ensures IsWhole(logical, shard, past + [m])
  {
    hide IsFirst, Joined, SlotsOf, IsCut, HasArrived;
    var cuts := JoinedIsCut(past + [m], shard.total);
  }

  // What a group has become by one more shard.
  ghost predicate IsOneMore(before: Option<PartialGroup>, g: PartialGroup, m: Message, shard: Shard, now: int) {
    var charge := if ByteLength(m.body) < 1536 then 2048 else ByteLength(m.body) + 512;
    && g.total == shard.total && g.kind == m.kind && g.lastSeen == now
    && if before == None then
         && g.slots == map[shard.idx := m.body] && g.bytes == charge
         && g.author == m.author && g.createdAt == now && g.lastRepair == None
         && g.header == if shard.idx == 0 then Some(m) else None
       else
         && g.slots == before.value.slots[shard.idx := m.body] && g.bytes == before.value.bytes + charge
         && g.author == before.value.author && g.createdAt == before.value.createdAt
         && g.lastRepair == before.value.lastRepair
         && g.header == if shard.idx == 0 then Some(m) else before.value.header
  }

  lemma GrownIsOneMore(before: Option<PartialGroup>, m: Message, shard: Shard, now: int)
    requires before.Some? ==> before.value.total == shard.total && before.value.kind == m.kind
    ensures IsOneMore(before, Grown(before, m, shard, now), m, shard, now)
  {
  }

  ghost predicate StillMissing(past: seq<Message>, m: Message, shard: Shard) {
    !HasArrived(past, shard.idx) && exists i :: 0 <= i < shard.total && !HasArrived(past + [m], i)
  }

  // A shard an admitted group has a slot for.
  ghost predicate Fitting(group: Option<PartialGroup>, m: Message, shard: Shard) {
    && (group.Some? ==> group.value.total == shard.total && group.value.kind == m.kind && shard.idx !in group.value.slots)
    && (if group.Some? then group.value.bytes else 0) + SlotCharge(m.body) <= GROUP_MAX_BYTES
  }

  function Grown(group: Option<PartialGroup>, m: Message, shard: Shard, now: int): PartialGroup {
    Filled(if group.Some? then group.value else Opened(m, shard, now), m, shard, now)
  }

  ghost predicate StoredAs(outcome: ShardIngest, m: Message, shard: Shard, now: int, before: Option<PartialGroup>,
                           after: Option<PartialGroup>,
                           past: seq<Message>, all: seq<Message>) {
    match outcome
    case Dropped => false
    case Buffered => StillMissing(past, m, shard) && all == past + [m] && after == Some(Grown(before, m, shard, now))
    case Complete(logical) => CompletedBy(past, m, shard, logical) && after == None
  }

  lemma StoredMeans(m: Message, shard: Shard, now: int, before: Option<PartialGroup>, past: seq<Message>)
    requires Fitting(before, m, shard)
    ensures IsOneMore(before, Grown(before, m, shard, now), m, shard, now)
    ensures forall logical, after, all :: StoredAs(Complete(logical), m, shard, now, before, after, past, all) ==>
              IsWhole(logical, shard, past + [m])
  {
    hide IsWhole, CompletedBy, IsOneMore;
    GrownIsOneMore(before, m, shard, now);
    forall logical | CompletedBy(past, m, shard, logical) ensures IsWhole(logical, shard, past + [m]) {
      CompletedIsWhole(past, m, shard, logical);
    }
  }

  // Slotting a shard leaves the group short of some index, or makes it the whole body.
  lemma Filling(key: Key, group: Option<PartialGroup>, past: seq<Message>, m: Message, shard: Shard, now: int)
    requires m.shard == Some(shard) && key == Key(m.pubkey, shard.group) && Fitting(group, m, shard)
    requires group.Some? ==> UnderWay(key, group.value, past)
    requires group == None ==> past == []
    ensures var g, all := Grown(group, m, shard, now), past + [m];
            if g.IsComplete() then
              && g.header.Some?
              && var logical := SynthesizeFrom(g.header.value, Joined(g.slots, g.total), shard.group);
                 forall anything :: StoredAs(Complete(logical), m, shard, now, group, None, past, anything)
            else UnderWay(key, g, all) && StoredAs(Buffered, m, shard, now, group, Some(g), past, all)
  {
    hide SlotsOf, Sum, Stream, HasArrived;
    var before := if group.Some? then group.value else Opened(m, shard, now);
    assert Accounts(key, before, past) by {
      NothingArrived(key, Opened(m, shard, now));
    }
    assert Stream([m], key, before.total, before.kind) by {
      FirstOfStream(key, m, shard);
    }
    FillingAccounts(key, before, past, m, now);
    FilledCompletes(key, before, past, m, shard, now);
    assert Filled(before, m, shard, now).slots != map[] by {
      assert shard.idx in Filled(before, m, shard, now).slots;
    }
  }

  lemma NothingArrived(key: Key, g: PartialGroup)
    requires 2 <= g.total && g.slots == map[] && g.bytes == 0 && g.header == None
    ensures Accounts(key, g, [])
  {
  }

  lemma FirstOfStream(key: Key, m: Message, shard: Shard)
    requires m.shard == Some(shard) && key == Key(m.pubkey, shard.group)
    ensures Stream([m], key, shard.total, m.kind)
  {
  }

  lemma FilledCompletes(key: Key, before: PartialGroup, past: seq<Message>, m: Message, shard: Shard, now: int)
    requires m.shard == Some(shard) && key.group == shard.group && before.total == shard.total &&
        shard.idx !in before.slots
    requires Accounts(key, before, past) && Accounts(key, Filled(before, m, shard, now), past + [m])
    ensures var g, all := Filled(before, m, shard, now), past + [m];
            if g.IsComplete() then
              && g.header.Some?
              && CompletedBy(past, m, shard, SynthesizeFrom(g.header.value, Joined(g.slots, g.total), shard.group))
            else StillMissing(past, m, shard)
  {
    var g, all := Filled(before, m, shard, now), past + [m];
    CompleteWhen(key, g, all);
    FirstSeenWins(past, shard.idx);
    assert forall x :: x in all ==> x.shard.Some?;
    assert all[..|past|] == past;
    hide SlotsOf, Sum;
    if g.IsComplete() {
      var n :| IsFirst(all, 0, n) && g.header.value == all[n];
    }
  }

  // Room is made among the other groups; the shard's own is as it was.
  lemma YieldedBesides(before: map<Key, PartialGroup>, now: map<Key, PartialGroup>, key: Key,
                       arrivedBefore: map<Key, seq<Message>>, arrived: map<Key, seq<Message>>)
    requires Yielded(before, now, key) && Within(arrived, arrivedBefore)
    requires arrived.Keys == now.Keys && arrivedBefore.Keys == before.Keys
    ensures Yielded(before - {key}, now - {key}, key)
    ensures At(now, key) == At(before, key) && Past(arrived, key) == Past(arrivedBefore, key)
  {
  }

  // What taking in a shard comes to.
  ghost predicate IngestedAs(outcome: ShardIngest, m: Message, shard: Shard, key: Key, now: int,
                             before: map<Key, PartialGroup>, after: map<Key, PartialGroup>, past: seq<Message>,
                             all: seq<Message>, totalBytes: nat) {
    var charge := SlotCharge(m.body);
    if key in before && (before[key].total != shard.total || before[key].kind != m.kind) then
      // The signer contradicts its own header.
      outcome == Dropped && after == before && all == past
    else if key in before && shard.idx in before[key].slots then
      // A repeat is no progress.
      outcome == Dropped && after == before && all == past + [m]
    else if key in before && before[key].bytes + charge > GROUP_MAX_BYTES then
      outcome == Dropped && after == before - {key}
    else
      && Yielded(before - {key}, after - {key}, key)
      && if outcome == Dropped then totalBytes + charge > TOTAL_BUDGET_BYTES && At(after, key) == At(before, key) &&
          all == past
         else StoredAs(outcome, m, shard, now, At(before, key), At(after, key), past, all)
  }

  // One group put back changes no other.
  lemma StoredOnly(groups: map<Key, PartialGroup>, arrived: map<Key, seq<Message>>, key: Key, g: PartialGroup,
                   all: seq<Message>)
    requires AllUnderWay(groups, arrived)
    ensures groups[key := g] - {key} == groups - {key}
    ensures AllUnderWay(groups[key := g] - {key}, arrived[key := all] - {key})
    ensures UnderWay(key, g, all) ==> AllUnderWay(groups[key := g], arrived[key := all])
  {
    hide UnderWay;
    assert arrived[key := all] - {key} == arrived - {key};
  }

  class ReassemblyStore {
    var groups: map<Key, PartialGroup>
    var authorBytes: map<string, nat>
    var totalBytes: nat
    ghost var arrived: map<Key, seq<Message>>

    ghost predicate Booked()
      reads this
    {
      arrived.Keys == groups.Keys && Balanced(groups, authorBytes, totalBytes)
    }

    // The books balance, every group kept is under way, and no budget is exceeded.
    ghost predicate Valid()
      reads this
    {
      Booked() && AllUnderWay(groups, arrived) && WithinBudget(authorBytes, totalBytes)
    }

    constructor ()
      ensures Valid() && groups == map[]
    {
      groups, authorBytes, totalBytes, arrived := map[], map[], 0, map[];
    }

    // An author is on the books exactly when something of theirs is buffered.
    lemma ListedExactly(author: string)
      requires Valid()
      ensures author in authorBytes <==> exists k :: k in groups && k.pubkey == author
    {
      hide UnderWay;
      var w := WeightsOf(groups, author);
      assert Charged(authorBytes, author) == Sum(w);
      if k :| k in groups && k.pubkey == author {
        BytesAreOwed(k, groups[k], arrived[k]);
        SumWithout(w, k);
      } else {
        assert w == map[];
      }
    }

    // Take bytes off an author's account, which is closed when nothing is left on it.
    method GiveBack(pubkey: string, bytes: nat)
      requires bytes <= totalBytes && bytes <= Charged(authorBytes, pubkey)
      requires forall a :: a in authorBytes ==> authorBytes[a] > 0
      modifies `authorBytes, `totalBytes
      ensures totalBytes == old(totalBytes) - bytes && forall a :: a in authorBytes ==> authorBytes[a] > 0
      ensures forall a :: Charged(authorBytes, a) == Charged(old(authorBytes), a) - if a == pubkey then bytes else 0
    {
      totalBytes := SatSub(totalBytes, bytes);
      if pubkey in authorBytes {
        authorBytes := authorBytes[pubkey := SatSub(authorBytes[pubkey], bytes)];
        if authorBytes[pubkey] == 0 {
          authorBytes := authorBytes - {pubkey};
        }
      }
    }

    // Drop a group. Its bytes come off both accounts exactly: no subtraction ever has to stop at zero.
    method Evict(key: Key) returns (evicted: Option<PartialGroup>)
      requires Booked()
      modifies this
      ensures Booked() && groups == old(groups) - {key} && arrived == old(arrived) - {key}
      ensures old(Valid()) ==> Valid()
      ensures WithinBudget(old(authorBytes), old(totalBytes)) ==> WithinBudget(authorBytes, totalBytes)
      ensures evicted == if key in old(groups) then Some(old(groups)[key]) else None
      ensures totalBytes == old(totalBytes) - if key in old(groups) then old(groups)[key].bytes else 0
      ensures forall a :: Charged(authorBytes, a)
                       == Charged(old(authorBytes), a) - if key in old(groups) &&
                           a == key.pubkey then old(groups)[key].bytes else 0
    {
      hide Balanced, AllUnderWay;
      OthersStillUnderWay(groups, arrived, key);
      if key !in groups {
        assert groups == groups - {key} && arrived == arrived - {key};
        return None;
      }
      OnTheBooks(groups, authorBytes, totalBytes, key);
      var group := groups[key];
      groups := groups - {key};
      GiveBack(key.pubkey, group.bytes);
      EvictingBalances(old(groups), old(authorBytes), old(totalBytes), key, authorBytes);
      arrived := arrived - {key};
      return Some(group);
    }

    // Whom to evict: of an author's other groups, the one that has been idle longest.
    method StalestGroupOf(pubkey: string, except: Key) returns (stalest: Option<Key>)
      ensures stalest == None <==> forall k :: k in groups && k.pubkey == pubkey ==> k == except
      ensures stalest.Some? ==>
                && stalest.value in groups && stalest.value.pubkey == pubkey && stalest.value != except
                && forall k :: k in groups && k.pubkey == pubkey && k != except ==> groups[stalest.value].lastSeen <= groups[k].lastSeen
    {
      stalest := None;
      var todo := groups.Keys;
      while todo != {}
        invariant todo <= groups.Keys
        invariant stalest == None <==> forall k :: k in groups.Keys - todo && k.pubkey == pubkey ==> k == except
        invariant stalest.Some? ==>
                    && stalest.value in groups && stalest.value.pubkey == pubkey && stalest.value != except
                    && forall k :: k in groups.Keys - todo && k.pubkey == pubkey && k != except ==>
                         groups[stalest.value].lastSeen <= groups[k].lastSeen
      {
        var k :| k in todo;
        todo := todo - {k};
        if k.pubkey == pubkey && k != except &&
            (stalest == None || groups[k].lastSeen < groups[stalest.value].lastSeen) {
          stalest := Some(k);
        }
      }
    }

    // Make room for a charge. The author's other groups go first; nobody else's are touched. For a group
    // within its ceiling the only refusal is for want of room overall.
    method Admit(key: Key, charge: nat) returns (admitted: bool)
      requires Valid()
      requires (if key in groups then groups[key].bytes else 0) + charge <= GROUP_MAX_BYTES
      modifies this
      ensures Valid() && Yielded(old(groups), groups, key) && Within(arrived, old(arrived))
      ensures InNeed(old(groups), groups, Charged(old(authorBytes), key.pubkey), Charged(authorBytes, key.pubkey),
          charge)
      ensures Charged(authorBytes, key.pubkey) + charge <= AUTHOR_BUDGET_BYTES
      ensures admitted <==> totalBytes + charge <= TOTAL_BUDGET_BYTES
    {
      hide AllUnderWay, WithinBudget, Balanced, Yielded, InNeed, Within, ReassemblyStore.Booked, Charged;
      NothingYielded(key, charge);
      while Charged(authorBytes, key.pubkey) + charge > AUTHOR_BUDGET_BYTES
        invariant Valid() && Yielded(old(groups), groups, key) && Within(arrived, old(arrived))
        invariant key in groups ==> key in old(groups) && groups[key] == old(groups)[key]
        invariant Charged(authorBytes, key.pubkey) + charge <= AUTHOR_BUDGET_BYTES ==>
                    InNeed(old(groups), groups, Charged(old(authorBytes), key.pubkey),
                        Charged(authorBytes, key.pubkey), charge)
        invariant Charged(authorBytes, key.pubkey) <= Charged(old(authorBytes), key.pubkey)
        decreases |groups|
      {
        var victim := StalestGroupOf(key.pubkey, key);
        AlwaysAVictim(key, charge);
        if victim == None {
          return false;
        }
        YieldingOne(old(groups), groups, old(arrived), arrived, key, victim.value);
        IsOnTheBooks(victim.value);
        FewerLeft(groups, victim.value);
        ghost var owed := Charged(authorBytes, key.pubkey);
        YieldingInNeed(old(groups), groups, key, victim.value, Charged(old(authorBytes), key.pubkey), owed, charge);
        var evicted := Evict(victim.value);
        assert Charged(authorBytes, key.pubkey) == owed - old(groups)[victim.value].bytes;
      }
      admitted := totalBytes + charge <= TOTAL_BUDGET_BYTES;
    }

    lemma NothingYielded(key: Key, charge: nat)
      ensures Yielded(groups, groups, key) && Within(arrived, arrived)
      ensures var owed := Charged(authorBytes, key.pubkey);
              owed + charge <= AUTHOR_BUDGET_BYTES ==> InNeed(groups, groups, owed, owed, charge)
    {
    }

    lemma IsOnTheBooks(key: Key)
      requires Booked() && key in groups
      ensures groups[key].bytes <= Charged(authorBytes, key.pubkey)
    {
      OnTheBooks(groups, authorBytes, totalBytes, key);
    }

    // An author over budget has another group to give up: no one group can be over it.
    lemma AlwaysAVictim(key: Key, charge: nat)
      requires Valid()
      requires (if key in groups then groups[key].bytes else 0) + charge <= GROUP_MAX_BYTES
      requires Charged(authorBytes, key.pubkey) + charge > AUTHOR_BUDGET_BYTES
      ensures exists k :: k in groups && k.pubkey == key.pubkey && k != key
    {
      hide UnderWay, Sum;
      if forall k :: k in groups && k.pubkey == key.pubkey ==> k == key {
        OnlyGroupLeft(groups, key);
      }
    }

    // Buffer one shard. What another author has buffered is not touched.
    method Ingest(m: Message, now: int) returns (outcome: ShardIngest)
      requires Valid() && SlotCharge(m.body) <= GROUP_MAX_BYTES
      modifies this
      ensures Valid()
      ensures m.shard == None ==> outcome == Dropped && groups == old(groups)
      ensures m.shard.Some? ==>
                var shard, key := m.shard.value, Key(m.pubkey, m.shard.value.group);
                && IngestedAs(outcome, m, shard, key, now, old(groups), groups, Past(old(arrived), key),
                    Past(arrived, key), totalBytes)
                && (Charged(old(authorBytes), m.pubkey) + SlotCharge(m.body) <= AUTHOR_BUDGET_BYTES ==>
                      groups - {key} == old(groups) - {key})
                && (outcome.Complete? ==> IsWhole(outcome.message, shard, Past(old(arrived), key) + [m]))
                && (outcome == Buffered ==> key in groups && IsOneMore(At(old(groups), key), groups[key], m, shard, now))
    {
      hide AllUnderWay, WithinBudget, Balanced, Yielded, Within, StoredAs, UnderWay, IsWhole, IsOneMore;
      if m.shard == None {
        return Dropped;
      }
      var shard := m.shard.value;
      var key, charge := Key(m.pubkey, shard.group), SlotCharge(m.body);
      if key in groups {
        var group := groups[key];
        if group.total != shard.total || group.kind != m.kind {
          return Dropped;
        }
        if shard.idx in group.slots {
          RepeatKeeps(key, m);
          arrived := arrived[key := arrived[key] + [m]];
          return Dropped;
        }
        if group.bytes + charge > GROUP_MAX_BYTES {
          var evicted := Evict(key);
          return Dropped;
        }
      }
      var admitted := Admit(key, charge);
      YieldedBesides(old(groups), groups, key, old(arrived), arrived);
      if !admitted {
        return Dropped;
      }
      outcome := Store(m, shard, key, now);
    }

    // Slot an admitted shard, and if that completes its group, hand the body over and free its budget.
    method Store(m: Message, shard: Shard, key: Key, now: int) returns (outcome: ShardIngest)
      requires Valid() && m.shard == Some(shard) && key == Key(m.pubkey, shard.group)
      requires Fitting(At(groups, key), m, shard)
      requires Charged(authorBytes, key.pubkey) + SlotCharge(m.body) <= AUTHOR_BUDGET_BYTES
      requires totalBytes + SlotCharge(m.body) <= TOTAL_BUDGET_BYTES
      modifies this
      ensures Valid() && groups - {key} == old(groups) - {key} && outcome != Dropped
      ensures StoredAs(outcome, m, shard, now, At(old(groups), key), At(groups, key), Past(old(arrived), key),
          Past(arrived, key))
      ensures outcome.Complete? ==> IsWhole(outcome.message, shard, Past(old(arrived), key) + [m])
      ensures outcome == Buffered ==> key in groups && IsOneMore(At(old(groups), key), groups[key], m, shard, now)
    {
      hide Balanced, UnderWay, AllUnderWay, WithinBudget, StoredAs, Fitting, IsWhole, IsOneMore, CompletedBy;
      StoredMeans(m, shard, now, At(groups, key), Past(arrived, key));
      ghost var past := Past(arrived, key);
      KnownGroup(key);
      Filling(key, At(groups, key), past, m, shard, now);
      var charge := SlotCharge(m.body);
      var group := if key in groups then groups[key] else Opened(m, shard, now);
      group := Filled(group, m, shard, now);
      Put(key, group, charge, past + [m]);
      StoredOnly(old(groups), old(arrived), key, group, past + [m]);
      if !group.IsComplete() {
        return Buffered;
      }
      var complete := Evict(key);
      var logical := Synthesize(group, key.group);
      outcome := if logical.Some? then Complete(logical.value) else Dropped;
    }

    lemma RepeatKeeps(key: Key, m: Message)
      requires Valid() && key in groups && m.shard.Some? && key == Key(m.pubkey, m.shard.value.group)
      requires groups[key].total == m.shard.value.total && groups[key].kind == m.kind &&
          m.shard.value.idx in groups[key].slots
      ensures AllUnderWay(groups, arrived[key := arrived[key] + [m]])
    {
      hide AllUnderWay, UnderWay, Balanced, WithinBudget;
      KnownGroup(key);
      UnderWayStays(key, groups[key], Past(arrived, key), m);
      OneStillUnderWay(groups, arrived, key, Past(arrived, key) + [m]);
    }

    lemma KnownGroup(key: Key)
      requires Valid()
      ensures key in groups ==> UnderWay(key, groups[key], Past(arrived, key))
      ensures key !in groups ==> Past(arrived, key) == []
    {
    }

    // Keep a group, with what its new shard costs on the books.
    method Put(key: Key, group: PartialGroup, charge: nat, ghost all: seq<Message>)
      requires Booked() && WithinBudget(authorBytes, totalBytes) && charge > 0
      requires group.bytes == charge + if key in groups then groups[key].bytes else 0
      requires Charged(authorBytes, key.pubkey) + charge <= AUTHOR_BUDGET_BYTES &&
          totalBytes + charge <= TOTAL_BUDGET_BYTES
      modifies this
      ensures Booked() && WithinBudget(authorBytes, totalBytes)
      ensures groups == old(groups)[key := group] && arrived == old(arrived)[key := all]
    {
      hide Balanced;
      FillingBalances(groups, authorBytes, totalBytes, key, group, charge);
      groups := groups[key := group];
      authorBytes := authorBytes[key.pubkey := Charged(authorBytes, key.pubkey) + charge];
      totalBytes := totalBytes + charge;
      arrived := arrived[key := all];
      assert forall a :: Charged(authorBytes, a) == Charged(old(authorBytes), a) + if a == key.pubkey then charge
          else 0;
    }

    method Synthesize(group: PartialGroup, groupId: string) returns (logical: Option<Message>)
      ensures logical == if group.header == None then None
          else Some(SynthesizeFrom(group.header.value, Joined(group.slots, group.total), groupId))
    {
      var body := "";
      for i := 0 to group.total
        invariant body == Joined(group.slots, i)
      {
        if i in group.slots {
          body := body + group.slots[i];
        }
      }
      if !IsClean(body) {
        return None;
      }
      return if group.header == None then None else Some(SynthesizeFrom(group.header.value, body, groupId));
    }

    // Drop a group that was finished some other way.
    method Forget(pubkey: string, group: string)
      requires Valid()
      modifies this
      ensures Valid() && groups == old(groups) - {Key(pubkey, group)}
    {
      var evicted := Evict(Key(pubkey, group));
    }

    // Reap the groups that have stalled, or have lived too long, and no others.
    method SweepStale(now: int) returns (count: nat)
      requires Valid()
      modifies this
      ensures Valid() && groups == Live(old(groups), now)
      ensures forall k :: k in groups <==>
                && k in old(groups)
                && now - old(groups)[k].lastSeen < 300 * 1_000_000_000
                && now - old(groups)[k].createdAt < 3600 * 1_000_000_000
      ensures count == |old(groups)| - |groups|
    {
      hide AllUnderWay, WithinBudget, Balanced, IsStale, Live;
      var stale := set k | k in groups && IsStale(groups[k], now);
      count := |stale|;
      var todo := stale;
      ghost var reaped: set<Key> := {};
      while todo != {}
        invariant Valid() && reaped + todo == stale
        invariant groups == old(groups) - reaped
      {
        var k :| k in todo;
        todo := todo - {k};
        var evicted := Evict(k);
        OneByOne(old(groups), reaped, k);
        reaped := reaped + {k};
      }
      Swept(old(groups), stale, now);
      forall k | k in old(groups)
        ensures IsStale(old(groups)[k], now) <==>
                  || now - old(groups)[k].lastSeen >= 300 * 1_000_000_000
                  || now - old(groups)[k].createdAt >= 3600 * 1_000_000_000
      {
        StaleWhen(old(groups)[k], now);
      }
    }

    // Ask for what is missing from every big group that has stalled, once per window.
    method RepairTickets(now: int) returns (tickets: seq<RepairTicket>)
      requires Valid()
      modifies `groups
      ensures Valid()
      ensures groups == map k | k in old(groups) ::
                          if IsAsking(old(groups)[k], now) then old(groups)[k].(lastRepair := Some(now))
                              else old(groups)[k]
      ensures forall t :: t in tickets <==> exists k :: k in old(groups) && IsAsking(old(groups)[k], now) && t == TicketFor(k, old(groups)[k])
      ensures |tickets| == |set k | k in old(groups) && IsAsking(old(groups)[k], now)|
    {
      hide Balanced, UnderWay, WithinBudget, TicketFor, IsAsking, AllUnderWay, Ticketed;
      tickets := [];
      var todo := groups.Keys;
      ghost var asked: set<Key> := {};
      NoTickets(groups);
      while todo != {}
        invariant groups.Keys == old(groups).Keys && todo <= groups.Keys
        invariant asked == set k | k in old(groups).Keys - todo && IsAsking(old(groups)[k], now)
        invariant groups == map k | k in old(groups) :: if k in asked then old(groups)[k].(lastRepair := Some(now))
            else old(groups)[k]
        invariant asked <= old(groups).Keys && Ticketed(tickets, old(groups), asked)
      {
        var k :| k in todo;
        todo := todo - {k};
        var group := groups[k];
        if IsAsking(group, now) {
          OneTicketMore(tickets, old(groups), asked, k);
          groups := groups[k := group.(lastRepair := Some(now))];
          tickets := tickets + [TicketFor(k, group)];
          asked := asked + {k};
        }
      }
      assert asked == set k | k in old(groups) && IsAsking(old(groups)[k], now);
      TicketsAre(tickets, old(groups), asked);
      RepairsDoNotCount(old(groups), groups, now);
    }

    lemma RepairsDoNotCount(before: map<Key, PartialGroup>, after: map<Key, PartialGroup>, now: int)
      requires Balanced(before, authorBytes, totalBytes) && AllUnderWay(before, arrived)
      requires before.Keys == after.Keys
      requires forall k :: k in before ==> after[k] == before[k] || after[k] == before[k].(lastRepair := Some(now))
      ensures Balanced(after, authorBytes, totalBytes) && AllUnderWay(after, arrived)
    {
      hide Sum, UnderWay;
      assert Weights(before) == Weights(after);
      assert forall a :: WeightsOf(before, a) == WeightsOf(after, a);
      forall k | k in after ensures UnderWay(k, after[k], arrived[k]) {
        AskingKeepsUnderWay(k, before[k], arrived[k], now);
      }
    }
  }

  // One ticket for each of these groups, and no others.
  ghost predicate Ticketed(tickets: seq<RepairTicket>, groups: map<Key, PartialGroup>, asked: set<Key>)
    requires asked <= groups.Keys
  {
    && (forall t :: t in tickets <==> exists k :: k in asked && t == TicketFor(k, groups[k]))
    && |tickets| == |asked|
  }

  lemma NoTickets(groups: map<Key, PartialGroup>)
    ensures Ticketed([], groups, {})
  {
  }

  lemma OneTicketMore(tickets: seq<RepairTicket>, groups: map<Key, PartialGroup>, asked: set<Key>, k: Key)
    requires asked <= groups.Keys && k in groups && k !in asked && Ticketed(tickets, groups, asked)
    ensures Ticketed(tickets + [TicketFor(k, groups[k])], groups, asked + {k})
  {
    hide TicketFor;
  }

  lemma TicketsAre(tickets: seq<RepairTicket>, groups: map<Key, PartialGroup>, asked: set<Key>)
    requires asked <= groups.Keys && Ticketed(tickets, groups, asked)
    ensures forall t :: t in tickets <==> exists k :: k in asked && t == TicketFor(k, groups[k])
    ensures |tickets| == |asked|
  {
  }

  lemma OneStillUnderWay(groups: map<Key, PartialGroup>, arrived: map<Key, seq<Message>>, key: Key, more: seq<Message>)
    requires AllUnderWay(groups, arrived) && key in groups && UnderWay(key, groups[key], more)
    ensures key in arrived && AllUnderWay(groups, arrived[key := more])
  {
    hide UnderWay;
  }

  lemma OthersStillUnderWay(groups: map<Key, PartialGroup>, arrived: map<Key, seq<Message>>, key: Key)
    ensures AllUnderWay(groups, arrived) ==> AllUnderWay(groups - {key}, arrived - {key})
  {
    hide UnderWay;
  }

  lemma UnderWayStays(key: Key, group: PartialGroup, arrived: seq<Message>, m: Message)
    requires UnderWay(key, group, arrived)
    requires m.shard.Some? && Stream([m], key, group.total, group.kind) && m.shard.value.idx in group.slots
    ensures UnderWay(key, group, arrived + [m])
  {
    RepeatAccounts(key, group, arrived, m);
  }

  lemma AskingKeepsUnderWay(key: Key, group: PartialGroup, arrived: seq<Message>, now: int)
    requires UnderWay(key, group, arrived)
    ensures UnderWay(key, group.(lastRepair := Some(now)), arrived)
  {
  }

  ghost function Live(groups: map<Key, PartialGroup>, now: int): map<Key, PartialGroup> {
    map k | k in groups && !IsStale(groups[k], now) :: groups[k]
  }

  lemma Swept(before: map<Key, PartialGroup>, stale: set<Key>, now: int)
    requires stale == set k | k in before && IsStale(before[k], now)
    ensures before - stale == Live(before, now)
    ensures |stale| == |before| - |before - stale|
  {
  }

  predicate IsStale(group: PartialGroup, now: int) {
    SecondsSince(now, group.lastSeen) >= STALE_SECS || SecondsSince(now, group.createdAt) >= MAX_GROUP_LIFETIME_SECS
  }

  // Nothing for five minutes, or an hour in all, in nanoseconds.
  lemma StaleWhen(group: PartialGroup, now: int)
    ensures IsStale(group, now) <==>
              || now - group.lastSeen >= 300 * 1_000_000_000
              || now - group.createdAt >= 3600 * 1_000_000_000
  {
  }

  // A group of more than sixteen shards asks for the lowest missing ones, sixty-four at most, once it has
  // been idle for a minute and a minute has passed since it last asked.
  lemma AskingWhen(key: Key, group: PartialGroup, now: int)
    ensures IsAsking(group, now) <==>
              && group.total > 16 && |group.slots| != group.total && now - group.lastSeen >= 60 * 1_000_000_000
              && (group.lastRepair == None || now - group.lastRepair.value >= 60 * 1_000_000_000)
    ensures var t := TicketFor(key, group);
            && t.author == group.author && t.group == key.group && |t.missing| <= 64
            && (forall a, b :: 0 <= a < b < |t.missing| ==> t.missing[a] < t.missing[b])
            && (forall i :: i in t.missing ==> i < group.total && i !in group.slots)
            && forall i :: 0 <= i < group.total && i !in group.slots && i !in t.missing ==>
                 |t.missing| == 64 && forall j :: j in t.missing ==> j < i
  {
    hide Missing;
    MissingIsSorted(group.slots, 0, group.total, REPAIR_MAX_IDXS);
    forall i | 0 <= i < group.total && i !in group.slots && i !in TicketFor(key, group).missing
      ensures |TicketFor(key, group).missing| == 64 && forall j :: j in TicketFor(key, group).missing ==> j < i
    {
      MissingPassesNoneOver(group.slots, 0, group.total, REPAIR_MAX_IDXS, i);
    }
  }

  predicate IsAsking(group: PartialGroup, now: int) {
    && group.total > LOGGED_SHARD_GROUP_MAX_TOTAL && !group.IsComplete()
    && SecondsSince(now, group.lastSeen) >= REPAIR_IDLE_SECS
    && (group.lastRepair.Some? ==> SecondsSince(now, group.lastRepair.value) >= REPAIR_IDLE_SECS)
  }

  // The indices from `from` on that are not there yet, the first `most` of them.
  function Missing(slots: map<nat, MessageBody>, from: nat, total: nat, most: nat): (missing: seq<nat>)
    ensures |missing| <= most
    ensures forall i :: i in missing ==> from <= i < total && i !in slots
    decreases total - from
  {
    if most == 0 || from >= total then []
    else if from in slots then Missing(slots, from + 1, total, most)
    else [from] + Missing(slots, from + 1, total, most - 1)
  }

  function TicketFor(key: Key, group: PartialGroup): RepairTicket {
    RepairTicket(group.author, key.group, Missing(group.slots, 0, group.total, REPAIR_MAX_IDXS))
  }

  predicate Ascending(s: seq<nat>) {
    forall a, b :: 0 <= a < b < |s| ==> s[a] < s[b]
  }

  // In order, with no index passed over: if there is room left, every missing index is asked for.
  lemma {:induction false} MissingPassesNoneOver(slots: map<nat, MessageBody>, from: nat, total: nat, most: nat, i: nat)
    requires from <= i < total && i !in slots
    ensures var missing := Missing(slots, from, total, most);
            && Ascending(missing)
            && (i in missing || (|missing| == most && forall j :: j in missing ==> j < i))
    decreases total - from
  {
    MissingIsSorted(slots, from, total, most);
    if most > 0 {
      if from in slots {
        MissingPassesNoneOver(slots, from + 1, total, most, i);
      } else if from < i {
        MissingPassesNoneOver(slots, from + 1, total, most - 1, i);
      }
    }
  }

  lemma {:induction false} MissingIsSorted(slots: map<nat, MessageBody>, from: nat, total: nat, most: nat)
    ensures Ascending(Missing(slots, from, total, most))
    decreases total - from
  {
    if most > 0 && from < total {
      if from in slots {
        MissingIsSorted(slots, from + 1, total, most);
      } else {
        MissingIsSorted(slots, from + 1, total, most - 1);
        var rest := Missing(slots, from + 1, total, most - 1);
        forall a, b | 0 <= a < b <= |rest| ensures ([from] + rest)[a] < ([from] + rest)[b] {
          assert rest[b - 1] in rest && (a > 0 ==> rest[a - 1] < rest[b - 1]);
        }
      }
    }
  }

  // A group under way that asks always has something to ask for.
  lemma TicketsAskForSomething(key: Key, group: PartialGroup, arrived: seq<Message>)
    requires UnderWay(key, group, arrived)
    ensures TicketFor(key, group).missing != []
  {
    CompleteWhen(key, group, arrived);
    var i :| 0 <= i < group.total && !HasArrived(arrived, i);
    FirstSeenWins(arrived, i);
    MissingPassesNoneOver(group.slots, 0, group.total, REPAIR_MAX_IDXS, i);
  }
}
