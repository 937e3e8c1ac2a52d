/** Where the records of a ring of 2h slots lie after recycles at offset bid, for any order of picks and
    recycles, for as long as no buffer has been lost; and that one is lost within a single round. */
module RecycleTrace {
  import opened Bits
  import opened RingSpec

  predicate Even(x: int) {
    x % 2 == 0
  }

  lemma FourUp(k: nat)
    requires Pow2(k) >= 4
    ensures k >= 2 && Pow2(k) == 4 * Pow2(k - 2)
  {
    assert Pow2(0) == 1;
    assert k >= 1 && Pow2(k) == 2 * Pow2(k - 1);
    assert k >= 2 && Pow2(k - 1) == 2 * Pow2(k - 2);
  }

  /** The ring sizes this is about, powers of two from four up: twice an even number. */
  lemma Halved(n: nat) returns (h: nat)
    requires IsPow2(n) && n >= 4
    ensures n == 2 * h && h >= 2 && Even(h)
  {
    var k: nat :| n == Pow2(k);
    FourUp(k);
    var q := Pow2(k - 2);
    h := 2 * q;
  }

  /** The bid in slot 2i after `adds` recycles: the a-th, of buffer a, writes slot 2a modulo 2h. */
  function EvenRecord(h: nat, adds: nat, i: nat): nat {
    if adds > h + i then h + i else if adds > i then i else 2 * i
  }

  /** The bid in slot j: odd slots are never written. */
  function RecordAfter(h: nat, adds: nat, j: nat): nat {
    if Even(j) then EvenRecord(h, adds, j / 2) else j
  }

  ghost predicate Table(h: nat, adds: nat, slots: seq<Slot>) {
    |slots| == 2 * h && forall j :: 0 <= j < 2 * h ==> slots[j].bid == RecordAfter(h, adds, j)
  }

  /** What the pick at position j of the second round may have found. */
  predicate SecondFinds(h: nat, adds: nat, j: nat, bid: nat) {
    if Even(j) then bid == j / 2 || (adds > h + j / 2 && bid == h + j / 2) else bid == j
  }

  predicate PickFinds(h: nat, adds: nat, p: nat, bid: nat) {
    if p < 2 * h then bid == p else SecondFinds(h, adds, p - 2 * h, bid)
  }

  /** The record of buffer i in slot 2i was picked before it was overwritten. */
  ghost predicate InTime(h: nat, picked: seq<nat>, i: nat) {
    |picked| > 2 * h + 2 * i && picked[2 * h + 2 * i] == i
  }

  /** The picks of a kernel that has always been ahead of the recycles. */
  ghost predicate Ahead(h: nat, adds: nat, picked: seq<nat>) {
    && (forall p :: 0 <= p < |picked| ==> PickFinds(h, adds, p, picked[p]))
    && (adds >= 1 ==> |picked| >= 2 * adds - 1 || |picked| >= 2 * h - 1)
    && forall i :: 0 <= i < h && Even(i) && adds > h + i ==> InTime(h, picked, i)
  }

  /** No slot and no holding has buffer x: nothing can bring it back. */
  ghost predicate Missing(slots: seq<Slot>, held: seq<nat>, x: nat) {
    (forall j :: 0 <= j < |slots| ==> slots[j].bid != x) && x !in held
  }

  // ---- a pick ----

  /** The slot of position p in the first round or the second. */
  function SlotOf(n: nat, p: nat): nat {
    if p < n then p else p - n
  }

  lemma SlotIsModulo(n: nat, p: nat)
    requires 0 < n && p < 2 * n
    ensures p % n == SlotOf(n, p)
  {
    ModuloUnique(p, n, if p < n then 0 else 1, SlotOf(n, p));
  }

  /** The first round finds every record still in its place. */
  lemma FirstRoundFinds(h: nat, adds: nat, p: nat)
    requires p < 2 * h && (adds >= 1 ==> p >= 2 * adds - 1 || p == 2 * h - 1)
    ensures RecordAfter(h, adds, p) == p
  {
    if Even(p) {
      var i := p / 2;
      assert p == 2 * i;
    }
  }

  /** The second round finds slots that have been written once or twice. */
  lemma SecondRoundFinds(h: nat, adds: nat, j: nat)
    requires j < adds
    ensures SecondFinds(h, adds, j, RecordAfter(h, adds, j))
  {
  }

  lemma NextPickFinds(h: nat, adds: nat, advances: nat, picked: seq<nat>)
    requires Ahead(h, adds, picked) && advances <= adds <= 2 * h && |picked| < 2 * h + advances
    ensures PickFinds(h, adds, |picked|, RecordAfter(h, adds, SlotOf(2 * h, |picked|)))
  {
    if |picked| < 2 * h {
      FirstRoundFinds(h, adds, |picked|);
    } else {
      SecondRoundFinds(h, adds, |picked| - 2 * h);
    }
  }

  lemma PicksGrow(h: nat, adds: nat, picked: seq<nat>, bid: nat)
    requires Ahead(h, adds, picked) && PickFinds(h, adds, |picked|, bid)
    ensures Ahead(h, adds, picked + [bid])
  {
    forall i | 0 <= i < h && Even(i) && adds > h + i
      ensures InTime(h, picked + [bid], i)
    {
      assert InTime(h, picked, i);
    }
  }

  lemma PickStaysAhead(h: nat, adds: nat, advances: nat, slots: seq<Slot>, picked: seq<nat>)
    requires h > 0 && Table(h, adds, slots) && Ahead(h, adds, picked)
    requires advances <= adds <= 2 * h && |picked| < 2 * h + advances
    ensures Ahead(h, adds, picked + [slots[|picked| % (2 * h)].bid])
  {
    SlotIsModulo(2 * h, |picked|);
    NextPickFinds(h, adds, advances, picked);
    PicksGrow(h, adds, picked, slots[SlotOf(2 * h, |picked|)].bid);
  }

  // ---- an add ----

  /** After one more add the table goes on, or buffer x is missing: the second add can only cost buffer 2. */
  ghost predicate GoesOnOrLoses(h: nat, a: nat, slots: seq<Slot>, picked: seq<nat>, x: nat)
    requires a <= |picked|
  {
    || (a < 2 * h && Table(h, a + 1, slots) && Ahead(h, a + 1, picked))
    || (x < 2 * h && a >= 1 && (a == 1 ==> x == 2) && Missing(slots, picked[a..], x))
  }

  /** One more add changes one record: that of slot 2a in the first half of the round, 2a - 2h then. */
  lemma RecordChanges(h: nat, a: nat, i: nat, j: nat)
    requires i < h && (a == i || a == h + i) && j < 2 * h
    ensures RecordAfter(h, a + 1, j) == if j == 2 * i then a else RecordAfter(h, a, j)
  {
    if Even(j) {
      assert j == 2 * (j / 2);
    }
  }

  lemma TableAdd(h: nat, a: nat, i: nat, slots: seq<Slot>, r: Slot)
    requires i < h && (a == i || a == h + i) && Table(h, a, slots) && r.bid == a
    ensures Table(h, a + 1, slots[2 * i := r])
  {
    var slots' := slots[2 * i := r];
    forall j | 0 <= j < 2 * h
      ensures slots'[j].bid == RecordAfter(h, a + 1, j)
    {
      RecordChanges(h, a, i, j);
    }
  }

  lemma PickedFindsMore(h: nat, a: nat, picked: seq<nat>)
    requires Ahead(h, a, picked)
    ensures forall p :: 0 <= p < |picked| ==> PickFinds(h, a + 1, p, picked[p])
  {
    forall p | 0 <= p < |picked|
      ensures PickFinds(h, a + 1, p, picked[p])
    {
      assert PickFinds(h, a, p, picked[p]);
    }
  }

  lemma EarlyRecords(h: nat, a: nat, j: nat)
    requires 1 <= a < h && j < 2 * h
    ensures RecordAfter(h, a + 1, j) != 2 * a
  {
    if Even(j) {
      assert j == 2 * (j / 2);
    }
  }

  /** In the first half of the round the buffer whose record was overwritten is lost unless picked. */
  lemma EarlyMissing(h: nat, a: nat, slots: seq<Slot>, picked: seq<nat>)
    requires Table(h, a + 1, slots) && Ahead(h, a, picked) && 1 <= a < h && a <= |picked| <= 2 * a
    ensures Missing(slots, picked[a..], 2 * a)
  {
    forall j | 0 <= j < |slots|
      ensures slots[j].bid != 2 * a
    {
      EarlyRecords(h, a, j);
    }
    assert forall p :: a <= p < |picked| ==> PickFinds(h, a, p, picked[p]);
  }

  lemma EarlyAdd(h: nat, a: nat, slots: seq<Slot>, picked: seq<nat>, r: Slot)
    requires Table(h, a, slots) && Ahead(h, a, picked) && a < h && a < |picked| && r.bid == a
    ensures GoesOnOrLoses(h, a, slots[2 * a := r], picked, 2 * a)
  {
    TableAdd(h, a, a, slots, r);
    if |picked| <= 2 * a {
      EarlyMissing(h, a, slots[2 * a := r], picked);
    } else {
      PickedFindsMore(h, a, picked);
    }
  }

  lemma LateRecords(h: nat, i: nat, j: nat)
    requires i < h && Even(i) && j < 2 * h
    ensures RecordAfter(h, h + i + 1, j) != i
  {
    if Even(j) {
      assert j == 2 * (j / 2);
    }
  }

  lemma LatePicks(h: nat, i: nat, p: nat, bid: nat)
    requires i < h && Even(i) && h + i <= p < 2 * h + 2 * i && PickFinds(h, h + i, p, bid)
    ensures bid != i
  {
    if p >= 2 * h && Even(p - 2 * h) {
      assert p - 2 * h == 2 * ((p - 2 * h) / 2);
    }
  }

  /** In the second half slot 2i gets buffer h + i. For even i the record destroyed is the last one of
      buffer i, which is lost unless picked. */
  lemma LateMissing(h: nat, i: nat, slots: seq<Slot>, picked: seq<nat>)
    requires Table(h, h + i + 1, slots) && Ahead(h, h + i, picked)
    requires i < h && Even(i) && h + i <= |picked| <= 2 * h + 2 * i
    ensures Missing(slots, picked[h + i..], i)
  {
    forall j | 0 <= j < |slots|
      ensures slots[j].bid != i
    {
      LateRecords(h, i, j);
    }
    forall p | h + i <= p < |picked|
      ensures picked[p] != i
    {
      LatePicks(h, i, p, picked[p]);
    }
  }

  lemma LateStaysAhead(h: nat, i: nat, picked: seq<nat>)
    requires Ahead(h, h + i, picked) && i < h && h >= 1 && (!Even(i) || |picked| > 2 * h + 2 * i)
    ensures Ahead(h, h + i + 1, picked)
  {
    PickedFindsMore(h, h + i, picked);
    if Even(i) {
      assert PickFinds(h, h + i, 2 * h + 2 * i, picked[2 * h + 2 * i]);
      assert (2 * i) / 2 == i;
      assert InTime(h, picked, i);
    }
  }

  lemma LateAdd(h: nat, i: nat, slots: seq<Slot>, picked: seq<nat>, r: Slot)
    requires Table(h, h + i, slots) && Ahead(h, h + i, picked)
    requires 2 <= h && i < h && h + i < |picked| && r.bid == h + i
    ensures GoesOnOrLoses(h, h + i, slots[2 * i := r], picked, i)
  {
    TableAdd(h, h + i, i, slots, r);
    if !Even(i) || |picked| > 2 * h + 2 * i {
      LateStaysAhead(h, i, picked);
    } else {
      LateMissing(h, i, slots[2 * i := r], picked);
    }
  }

  lemma LastRecords(h: nat, j: nat)
    requires 0 < j < 2 * h && Even(h)
    ensures RecordAfter(h, 2 * h, j) != h
  {
    if Even(j) {
      assert j == 2 * (j / 2);
    }
  }

  lemma LastPicks(h: nat, j: nat, bid: nat)
    requires 0 < j < 2 * h && Even(h) && SecondFinds(h, 2 * h, j, bid)
    ensures bid != h
  {
    if Even(j) {
      assert j == 2 * (j / 2);
    }
  }

  /** The add after a whole round: buffer 0 overwrites the last record of buffer h. */
  lemma LastMissing(h: nat, slots: seq<Slot>, picked: seq<nat>, r: Slot)
    requires Table(h, 2 * h, slots) && Ahead(h, 2 * h, picked) && h >= 2 && Even(h)
    requires 2 * h < |picked| <= 4 * h && r.bid == 0
    ensures Missing(slots[0 := r], picked[2 * h..], h)
  {
    var slots' := slots[0 := r];
    forall j | 0 <= j < |slots'|
      ensures slots'[j].bid != h
    {
      if j > 0 { LastRecords(h, j); }
    }
    assert InTime(h, picked, 0);
    forall p | 2 * h <= p < |picked|
      ensures picked[p] != h
    {
      assert PickFinds(h, 2 * h, p, picked[p]);
      if p > 2 * h { LastPicks(h, p - 2 * h, picked[p]); }
    }
  }

  /** The slot the next add writes. */
  function Target(h: nat, a: nat): nat {
    if a < h then 2 * a else if a < 2 * h then 2 * (a - h) else 0
  }

  /** The buffer it may cost. */
  function Casualty(h: nat, a: nat): nat {
    if a < h then 2 * a else if a < 2 * h then a - h else h
  }

  /** The oldest buffer held. */
  lemma OldestHeld(h: nat, a: nat, picked: seq<nat>)
    requires Ahead(h, a, picked) && 0 < h && a <= 2 * h && a < |picked|
    ensures picked[a] == if a < 2 * h then a else 0
  {
    assert PickFinds(h, a, a, picked[a]);
    if a == 2 * h { assert InTime(h, picked, 0); }
  }

  /** Its recycle writes the target. */
  lemma AddHitsTarget(n: nat, h: nat, a: nat, bid: nat)
    requires n == 2 * h && 0 < h && a <= n && bid == if a < n then a else 0
    ensures (n + a + bid) % n == Target(h, a) < n
  {
    var q := if a < h then 1 else 2;
    assert n + a + bid == n * q + Target(h, a);
    ModuloUnique(n + a + bid, n, q, Target(h, a));
  }

  lemma TargetOutcome(h: nat, a: nat, slots: seq<Slot>, picked: seq<nat>, r: Slot)
    requires Table(h, a, slots) && Ahead(h, a, picked) && h >= 2 && Even(h) && Target(h, a) < 2 * h
    requires a <= 2 * h && a < |picked| <= a + 2 * h && r.bid == if a < 2 * h then a else 0
    ensures GoesOnOrLoses(h, a, slots[Target(h, a) := r], picked, Casualty(h, a))
  {
    if a < h {
      assert Target(h, a) == Casualty(h, a) == 2 * a;
      EarlyAdd(h, a, slots, picked, r);
    } else if a < 2 * h {
      var i := a - h;
      assert a == h + i && Target(h, a) == 2 * i && Casualty(h, a) == i;
      LateAdd(h, i, slots, picked, r);
    } else {
      LastMissing(h, slots, picked, r);
    }
  }

  /** Any recycle of the oldest buffer held: the table goes on, or a buffer is missing. */
  lemma AddOutcome(n: nat, h: nat, a: nat, slots: seq<Slot>, picked: seq<nat>, r: Slot)
    requires n == 2 * h && h >= 2 && Even(h) && Table(h, a, slots) && Ahead(h, a, picked)
    requires a <= n && a < |picked| <= a + n && r.bid == picked[a]
    ensures var w := (n + a + picked[a]) % n;
            w < n && GoesOnOrLoses(h, a, slots[w := r], picked, Casualty(h, a))
  {
    OldestHeld(h, a, picked);
    AddHitsTarget(n, h, a, picked[a]);
    TargetOutcome(h, a, slots, picked, r);
  }

  // ---- what is accessible on the way ----

  /** The bid at position p: already picked, or still in its slot. */
  function Lies(slots: seq<Slot>, picked: seq<nat>, p: nat): nat
    requires p < 2 * |slots|
  {
    if p < |picked| then picked[p] else slots[SlotOf(|slots|, p)].bid
  }

  lemma LiesBySlot(h: nat, a: nat, slots: seq<Slot>, picked: seq<nat>, p: nat)
    requires Table(h, a, slots) && Ahead(h, a, picked) && p < 4 * h
    ensures var bid := Lies(slots, picked, p);
            PickFinds(h, a, p, bid) || bid == RecordAfter(h, a, SlotOf(2 * h, p))
  {
    assert p < |picked| ==> PickFinds(h, a, p, picked[p]);
  }

  /** Before the third recycle, positions up to a whole round hold each buffer in order. */
  lemma LiesInOrder(h: nat, a: nat, slots: seq<Slot>, picked: seq<nat>, p: nat)
    requires 2 <= h && Table(h, a, slots) && Ahead(h, a, picked)
    requires a <= 2 && a <= p < 2 * h + a
    ensures Lies(slots, picked, p) == SlotOf(2 * h, p)
  {
    LiesBySlot(h, a, slots, picked, p);
    if p < 2 * h && Even(p) && p >= |picked| {
      assert p == 2 * (p / 2);
    }
  }

  /** A buffer of the first round whose slot is an odd one lies there in both rounds. */
  lemma OddLies(h: nat, a: nat, slots: seq<Slot>, picked: seq<nat>, p: nat, bid: nat)
    requires Table(h, a, slots) && Ahead(h, a, picked)
    requires bid < 2 * h && !Even(bid) && (p == bid || p == 2 * h + bid)
    ensures Lies(slots, picked, p) == bid
  {
    LiesBySlot(h, a, slots, picked, p);
  }

  lemma SlotTwoLies(h: nat, a: nat, slots: seq<Slot>, picked: seq<nat>)
    requires 2 <= h && Table(h, a, slots) && Ahead(h, a, picked) && a >= 3
    ensures var bid := Lies(slots, picked, 2 * h + 2);
            bid == 1 || (bid == h + 1 && a > bid)
  {
    LiesBySlot(h, a, slots, picked, 2 * h + 2);
  }

  /** From the third on, the bid in slot 2 lies at a second position. */
  lemma LiesTwice(h: nat, a: nat, recycled: nat, slots: seq<Slot>, picked: seq<nat>) returns (p: nat)
    requires 2 <= h && Even(h) && Table(h, a, slots) && Ahead(h, a, picked)
    requires 3 <= recycled <= a <= recycled + 1 && a <= 2 * h
    ensures recycled <= p < 2 * h + recycled && p != 2 * h + 2
    ensures Lies(slots, picked, p) == Lies(slots, picked, 2 * h + 2)
  {
    SlotTwoLies(h, a, slots, picked);
    var bid := Lies(slots, picked, 2 * h + 2);
    p := if bid >= recycled then bid else 2 * h + bid;
    OddLies(h, a, slots, picked, p, bid);
  }
}
