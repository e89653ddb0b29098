/**
  ~TopicGroup: which entities a teardown leaves, and that what it leaves is
  exactly what outstanding loans protect.
*/
module RegistryTeardown {
  import opened Dds
  import opened RegistrySpec
  import opened RegistryInvariant

  /** Some recorded live reader of the group has samples on loan. */
  ghost predicate OnLoan(p: Participant, g: Group) {
    exists r :: r in g.readers && g.readers[r] in p.loans
  }

  /** The group records a reader handle whose reader is gone. */
  ghost predicate HasStaleReader(p: Participant, g: Group) {
    exists r :: r in g.readers && g.readers[r] !in p.entities
  }

  /** h is a loaned reader of the group, or something such a reader needs. */
  ghost predicate HeldByLoan(p: Participant, g: Group, h: Handle) {
    exists r :: r in g.readers && g.readers[r] in p.loans && HeldByReader(p, g, h, r)
  }

  ghost predicate HeldByReader(p: Participant, g: Group, h: Handle, r: string)
    requires r in g.readers
  {
    var x := g.readers[r];
    h == x || h == g.subscriber || h == g.topic || (x in p.entities && p.entities[x].Reader? && p.entities[x].description == h)
  }

  // ---- who refers to what a group owns ----

  /** A live entity that refers to something a group owns is owned by the group too. */
  lemma ReferrerIsOwned(s: Registry, t: string, h: Handle, x: Handle)
    requires Inv(s) && t in s.topics && Owns(s.topics[t], h)
    requires x in s.dds.entities && s.dds.entities[x].RefersTo(h)
    ensures Owns(s.topics[t], x)
  {
    assert Recorded(s, x);
    var y :| GroupOwns(s, y, x);
    assert InvOf(s, y);
    ReferenceStaysInside(y, s.topics[y], s.dds, s.listeners, s.rlHandler, s.wlHandler, x, h);
    assert GroupOwns(s, y, h) && GroupOwns(s, t, h);
  }

  lemma ReferenceStaysInside(t: string, g: Group, p: Participant, ls: map<nat, nat>, rl: nat, wl: nat, x: Handle, h: Handle)
    requires p.Valid() && GroupInv(t, g, p, ls, rl, wl) && Owns(g, x)
    requires x in p.entities && p.entities[x].RefersTo(h)
    ensures Owns(g, h)
  {
    assert p.WellReferenced(p.entities[x]) && 0 < h;
    if OwnsReader(g, x) {
      var r :| r in g.readers && g.readers[r] == x;
      assert ReaderOk(t, g, p, r);
      if h != g.subscriber && h != g.topic {
        var k :| IsOwnFilterAt(t, g, r, h, k);
        assert OwnsFilter(g, h);
      }
    }
  }

  /** What kind of record a live owned entity has. */
  lemma OwnedKind(t: string, g: Group, p: Participant, ls: map<nat, nat>, rl: nat, wl: nat, h: Handle)
    requires p.Valid() && GroupInv(t, g, p, ls, rl, wl) && Owns(g, h) && h in p.entities
    ensures match p.entities[h]
            case Topic(_, _) => h == g.topic
            case FilteredTopic(_, _, _) => OwnsFilter(g, h)
            case Publisher(_) => h == g.publisher
            case Subscriber(_) => h == g.subscriber
            case Writer(_, _, _, _) => h == g.writer
            case Reader(_, _, _, _) => OwnsReader(g, h)
  {
    if OwnsReader(g, h) {
      var r :| r in g.readers && g.readers[r] == h;
      assert ReaderOk(t, g, p, r);
    }
  }

  // ---- the deletions, one after the other ----

  /** The readers a teardown deletes: those that live and have nothing on loan. */
  ghost predicate Gone(p: Participant, g: Group, h: Handle) {
    OwnsReader(g, h) && h in p.entities && h !in p.loans
  }

  lemma ReadersGone(s: Registry, t: string)
    requires Inv(s) && t in s.topics
    ensures var p, g := s.dds, s.topics[t];
            var hs := if g.subscriber != NIL then g.readers.Values else {};
            && (forall h :: h in Deletable(p, g.subscriber, hs) <==> Gone(p, g, h))
            && (Deletable(p, g.subscriber, hs) == hs <==> !OnLoan(p, g) && !HasStaleReader(p, g))
  {
    var p, g := s.dds, s.topics[t];
    var hs := if g.subscriber != NIL then g.readers.Values else {};
    var gone := Deletable(p, g.subscriber, hs);
    assert InvOf(s, t);
    assert hs == g.readers.Values;
    forall h ensures h in gone <==> Gone(p, g, h) {
      if h in g.readers.Values {
        var r :| r in g.readers && g.readers[r] == h;
        assert ReaderOk(t, g, p, r) && OwnsReader(g, h);
      }
    }
    if gone == hs {
      forall r | r in g.readers ensures g.readers[r] in p.entities && g.readers[r] !in p.loans {
        assert g.readers[r] in hs;
      }
    } else {
      var h :| h in hs && h !in gone;
      var r :| r in g.readers && g.readers[r] == h;
      assert OwnsReader(g, h);
    }
  }

  /** Publisher side: nothing keeps the writer, and then nothing keeps the publisher. */
  lemma PublisherSideGoes(s: Registry, t: string, p1: Participant, gone: set<Handle>)
    requires Inv(s) && t in s.topics && p1 == Remove(s.dds, gone)
    requires forall h :: h in gone ==> Gone(s.dds, s.topics[t], h)
    ensures var g := s.topics[t];
            var (p2, ok2) := DeleteIf(p1, g.publisher != NIL, g.writer);
            var (p3, ok3) := DeleteIf(p2, g.domain, g.publisher);
            ok2 && ok3 && p3 == Remove(p1, {g.writer, g.publisher} - {NIL})
  {
    var p, g := s.dds, s.topics[t];
    assert InvOf(s, t);
    forall h | h in gone ensures p.entities[h].Reader? {
      OwnedKind(t, g, p, s.listeners, s.rlHandler, s.wlHandler, h);
      var r :| r in g.readers && g.readers[r] == h;
      assert ReaderOk(t, g, p, r);
    }
    var p2 := DeleteIf(p1, g.publisher != NIL, g.writer).0;
    if g.writer != NIL {
      forall x | x in p1.entities ensures !p1.entities[x].RefersTo(g.writer) {
        assert p.WellReferenced(p.entities[x]);
      }
    }
    if g.publisher != NIL {
      forall x | x in p2.entities ensures !p2.entities[x].RefersTo(g.publisher) {
        if p2.entities[x].RefersTo(g.publisher) {
          assert Owns(g, g.publisher);
          assert p.WellReferenced(p.entities[x]);
          ReferrerIsOwned(s, t, g.publisher, x);
          OwnedKind(t, g, p, s.listeners, s.rlHandler, s.wlHandler, x);
          assert false;
        }
      }
    }
    var p3 := DeleteIf(p2, g.domain, g.publisher).0;
    assert p3.entities == Remove(p1, {g.writer, g.publisher} - {NIL}).entities;
  }

  /** Among the entities left, the group's subscriber, filters and topic are only
      kept by loaned readers (and the topic by the filters they keep). */
  lemma KeptOnlyByLoans(s: Registry, t: string, q: Participant, h: Handle, x: Handle)
    requires Inv(s) && t in s.topics && Owns(s.topics[t], h)
    requires forall y :: y in q.entities ==> y in s.dds.entities && q.entities[y] == s.dds.entities[y]
    requires forall y :: Gone(s.dds, s.topics[t], y) ==> y !in q.entities
    requires s.topics[t].writer !in q.entities
    requires x in q.entities && q.entities[x].RefersTo(h)
    ensures (OwnsReader(s.topics[t], x) && x in s.dds.loans) || (OwnsFilter(s.topics[t], x) && h == s.topics[t].topic)
    ensures OwnsReader(s.topics[t], x) && x in s.dds.loans ==> OnLoan(s.dds, s.topics[t])
  {
    ReferrerIsOwned(s, t, h, x);
    assert InvOf(s, t);
    OwnedKind(t, s.topics[t], s.dds, s.listeners, s.rlHandler, s.wlHandler, x);
    if OwnsReader(s.topics[t], x) {
      var r :| r in s.topics[t].readers && s.topics[t].readers[r] == x;
      assert ReaderOk(t, s.topics[t], s.dds, r);
    }
  }

  /** The participant after the readers, the writer and the publisher are gone. */
  ghost predicate AfterPublisher(s: Registry, t: string, q: Participant)
    requires t in s.topics
  {
    var p, g := s.dds, s.topics[t];
    && q.loans == p.loans && q.next == p.next
    && (forall y :: y in q.entities ==> y in p.entities && q.entities[y] == p.entities[y])
    && (forall y :: y in p.entities && y !in q.entities <==>
          y in p.entities && (Gone(p, g, y) || (y != NIL && (y == g.writer || y == g.publisher))))
  }

  lemma LoanedReaderStays(s: Registry, t: string, q: Participant, r: string)
    requires Inv(s) && t in s.topics && AfterPublisher(s, t, q)
    requires r in s.topics[t].readers && s.topics[t].readers[r] in s.dds.loans
    ensures var g, h := s.topics[t], s.topics[t].readers[r];
            && h in q.entities && q.entities[h] == s.dds.entities[h]
            && q.entities[h].Reader? && q.entities[h].subscriber == g.subscriber
            && DescriptionOk(t, g, r, q.entities[h].description)
  {
    assert InvOf(s, t) && ReaderOk(t, s.topics[t], s.dds, r);
  }

  /** The subscriber goes unless a reader is on loan. */
  lemma SubscriberGoes(s: Registry, t: string, q: Participant)
    requires Inv(s) && t in s.topics && AfterPublisher(s, t, q)
    ensures var p, g := s.dds, s.topics[t];
            var (q', ok) := DeleteIf(q, g.domain, g.subscriber);
            && ok == !OnLoan(p, g)
            && q' == if OnLoan(p, g) || g.subscriber == NIL then q else Remove(q, {g.subscriber})
  {
    var p, g := s.dds, s.topics[t];
    assert InvOf(s, t);
    if OnLoan(p, g) {
      var r :| r in g.readers && g.readers[r] in p.loans;
      LoanedReaderStays(s, t, q, r);
      assert q.entities[g.readers[r]].RefersTo(g.subscriber);
    } else if g.subscriber != NIL {
      forall x | x in q.entities ensures !q.entities[x].RefersTo(g.subscriber) {
        if q.entities[x].RefersTo(g.subscriber) {
          KeptOnlyByLoans(s, t, q, g.subscriber, x);
        }
      }
      OnlyReadersAreGone(s, t, g.subscriber);
    }
  }

  /** A loaned reader of the group reads from h. */
  ghost predicate ReadOnLoan(p: Participant, g: Group, h: Handle) {
    exists r :: r in g.readers && g.readers[r] in p.loans && HeldByReader(p, g, h, r) && h != g.readers[r]
                && h != g.subscriber && h != g.topic
  }

  lemma OnlyReadersAreGone(s: Registry, t: string, h: Handle)
    requires Inv(s) && t in s.topics && h in s.dds.entities && !s.dds.entities[h].Reader?
    ensures !Gone(s.dds, s.topics[t], h)
  {
    assert InvOf(s, t);
    forall r | r in s.topics[t].readers ensures s.topics[t].readers[r] != h {
      assert ReaderOk(t, s.topics[t], s.dds, r);
    }
  }

  /** A loan holds the reader itself, the subscriber, the topic or an own filter. */
  lemma HeldKind(s: Registry, t: string, h: Handle, r: string)
    requires Inv(s) && t in s.topics && h in s.dds.entities
    requires r in s.topics[t].readers && s.topics[t].readers[r] in s.dds.loans && HeldByReader(s.dds, s.topics[t], h, r)
    ensures var g := s.topics[t];
            h == g.readers[r] || h == g.subscriber || h == g.topic || (OwnsFilter(g, h) && s.dds.entities[h].FilteredTopic?)
    ensures !Gone(s.dds, s.topics[t], h)
  {
    var p, g := s.dds, s.topics[t];
    assert InvOf(s, t) && ReaderOk(t, g, p, r);
    var x := g.readers[r];
    if h != x && h != g.subscriber && h != g.topic {
      var k :| IsOwnFilterAt(t, g, r, h, k);
      assert OwnsFilter(g, h);
    }
    if h != x {
      OnlyReadersAreGone(s, t, h);
    }
  }

  /** A filter goes unless a loaned reader reads from it. */
  lemma FiltersGo(s: Registry, t: string, q: Participant, q4: Participant)
    requires Inv(s) && t in s.topics && AfterPublisher(s, t, q)
    requires q4 == if OnLoan(s.dds, s.topics[t]) || s.topics[t].subscriber == NIL then q else Remove(q, {s.topics[t].subscriber})
    ensures var p, g := s.dds, s.topics[t];
            var filters := if g.domain then g.filteredTopics.Values else {};
            && (forall f :: f in Unreferenced(q4, filters) <==> OwnsFilter(g, f) && !ReadOnLoan(p, g, f))
            && (!OnLoan(p, g) ==> Unreferenced(q4, filters) == filters)
  {
    var p, g := s.dds, s.topics[t];
    var filters := if g.domain then g.filteredTopics.Values else {};
    assert InvOf(s, t);
    assert filters == g.filteredTopics.Values;
    forall f ensures f in Unreferenced(q4, filters) <==> OwnsFilter(g, f) && !ReadOnLoan(p, g, f) {
      if f in filters {
        FilterGoes(s, t, q, q4, f);
      }
    }
    if !OnLoan(p, g) {
      forall f | f in filters ensures f in Unreferenced(q4, filters) {
        assert OwnsFilter(g, f);
      }
    }
  }

  lemma FilterGoes(s: Registry, t: string, q: Participant, q4: Participant, f: Handle)
    requires Inv(s) && t in s.topics && AfterPublisher(s, t, q)
    requires q4 == if OnLoan(s.dds, s.topics[t]) || s.topics[t].subscriber == NIL then q else Remove(q, {s.topics[t].subscriber})
    requires f in s.topics[t].filteredTopics.Values
    ensures OwnsFilter(s.topics[t], f) && f in q4.entities && f !in q4.loans
    ensures q4.Referenced(f) <==> ReadOnLoan(s.dds, s.topics[t], f)
  {
    var p, g := s.dds, s.topics[t];
    assert InvOf(s, t);
    var n :| n in g.filteredTopics && g.filteredTopics[n] == f;
    assert OwnsFilter(g, f) && Owns(g, f);
    OnlyReadersAreGone(s, t, f);
    if q4.Referenced(f) {
      var x :| x in q4.entities && q4.entities[x].RefersTo(f);
      KeptOnlyByLoans(s, t, q4, f, x);
      var r :| r in g.readers && g.readers[r] == x;
      LoanedReaderStays(s, t, q, r);
      assert HeldByReader(p, g, f, r);
    }
    if ReadOnLoan(p, g, f) {
      var r :| r in g.readers && g.readers[r] in p.loans && HeldByReader(p, g, f, r) && f != g.readers[r]
               && f != g.subscriber && f != g.topic;
      LoanedReaderStays(s, t, q, r);
      assert q4.entities[g.readers[r]].RefersTo(f);
    }
  }

  /** The topic goes unless a reader is on loan. */
  lemma TopicGoes(s: Registry, t: string, q: Participant, q4: Participant, q5: Participant, dropped: set<Handle>)
    requires Inv(s) && t in s.topics && AfterPublisher(s, t, q)
    requires q4 == if OnLoan(s.dds, s.topics[t]) || s.topics[t].subscriber == NIL then q else Remove(q, {s.topics[t].subscriber})
    requires forall f :: f in dropped <==> OwnsFilter(s.topics[t], f) && !ReadOnLoan(s.dds, s.topics[t], f)
    requires q5 == Remove(q4, dropped)
    ensures var p, g := s.dds, s.topics[t];
            var (q', ok) := DeleteIf(q5, g.domain, g.topic);
            && ok == !OnLoan(p, g)
            && q' == if OnLoan(p, g) || g.topic == NIL then q5 else Remove(q5, {g.topic})
  {
    var p, g := s.dds, s.topics[t];
    assert InvOf(s, t);
    if OnLoan(p, g) {
      var r :| r in g.readers && g.readers[r] in p.loans;
      LoanKeepsTopic(s, t, q, q5, dropped, r);
    } else if g.topic != NIL {
      forall x | x in q5.entities ensures !q5.entities[x].RefersTo(g.topic) {
        if q5.entities[x].RefersTo(g.topic) {
          KeptOnlyByLoans(s, t, q5, g.topic, x);
        }
      }
      TopicIsNotDropped(s, t, q, dropped);
    }
  }

  lemma TopicIsNotDropped(s: Registry, t: string, q: Participant, dropped: set<Handle>)
    requires Inv(s) && t in s.topics && AfterPublisher(s, t, q) && s.topics[t].topic != NIL
    requires forall f :: f in dropped ==> OwnsFilter(s.topics[t], f)
    ensures s.topics[t].topic in q.entities && s.topics[t].topic !in dropped && s.topics[t].topic != s.topics[t].subscriber
    ensures s.topics[t].topic !in s.dds.loans
  {
    var p, g := s.dds, s.topics[t];
    assert InvOf(s, t);
    OnlyReadersAreGone(s, t, g.topic);
  }

  lemma LoanKeepsTopic(s: Registry, t: string, q: Participant, q5: Participant, dropped: set<Handle>, r: string)
    requires Inv(s) && t in s.topics && AfterPublisher(s, t, q)
    requires forall f :: f in dropped <==> OwnsFilter(s.topics[t], f) && !ReadOnLoan(s.dds, s.topics[t], f)
    requires OnLoan(s.dds, s.topics[t]) && q5 == Remove(q, dropped)
    requires r in s.topics[t].readers && s.topics[t].readers[r] in s.dds.loans
    ensures s.topics[t].topic != NIL && s.topics[t].domain && s.topics[t].topic in q5.entities
    ensures q5.Referenced(s.topics[t].topic)
  {
    var p, g, x := s.dds, s.topics[t], s.topics[t].readers[r];
    LoanedReaderStays(s, t, q, r);
    assert InvOf(s, t);
    TopicIsNotDropped(s, t, q, dropped);
    var d := q.entities[x].description;
    assert HeldByReader(p, g, d, r);
    if d == g.topic {
      assert !OwnsFilter(g, x) by {
        assert ReaderOk(t, g, p, r);
      }
      assert q5.entities[x].RefersTo(g.topic);
    } else {
      var k :| IsOwnFilterAt(t, g, r, d, k);
      assert OwnsFilter(g, d) && ReadOnLoan(p, g, d);
      FilterGoes(s, t, q, q, d);
      assert q5.entities[d].RefersTo(g.topic);
    }
  }

  // ---- the result ----

  /** ~TopicGroup removes exactly what the group owns and no loan protects, and
      prints no error iff nothing was on loan and no reader handle was stale. */
  lemma TeardownResult(s: Registry, t: string)
    requires Inv(s) && t in s.topics
    ensures var p, g := s.dds, s.topics[t];
            var (p', clean) := Teardown(p, g);
            && (forall h :: h in p'.entities <==> h in p.entities && (Owns(g, h) ==> HeldByLoan(p, g, h)))
            && (forall h :: h in p'.entities ==> p'.entities[h] == p.entities[h])
            && p'.next == p.next && p'.loans == p.loans
            && (clean <==> !OnLoan(p, g) && !HasStaleReader(p, g))
  {
    var p, g := s.dds, s.topics[t];
    var readers := if g.subscriber != NIL then g.readers.Values else {};
    var gone := Deletable(p, g.subscriber, readers);
    var p1 := Remove(p, gone);
    ReadersGone(s, t);
    PublisherSideGoes(s, t, p1, gone);
    var p2 := DeleteIf(p1, g.publisher != NIL, g.writer).0;
    var q := DeleteIf(p2, g.domain, g.publisher).0;
    assert AfterPublisher(s, t, q);
    SubscriberGoes(s, t, q);
    var q4 := DeleteIf(q, g.domain, g.subscriber).0;
    FiltersGo(s, t, q, q4);
    var filters := if g.domain then g.filteredTopics.Values else {};
    var dropped := Unreferenced(q4, filters);
    var q5 := Remove(q4, dropped);
    TopicGoes(s, t, q, q4, q5, dropped);
    var q6 := DeleteIf(q5, g.domain, g.topic).0;
    forall h | h in p.entities ensures h in q6.entities <==> (Owns(g, h) ==> HeldByLoan(p, g, h)) {
      LeftoverIsHeld(s, t, q, dropped, h);
    }
  }

  /** What is left of the group is what a loan holds. */
  lemma LeftoverIsHeld(s: Registry, t: string, q: Participant, dropped: set<Handle>, h: Handle)
    requires Inv(s) && t in s.topics && AfterPublisher(s, t, q) && h in s.dds.entities
    requires forall f :: f in dropped <==> OwnsFilter(s.topics[t], f) && !ReadOnLoan(s.dds, s.topics[t], f)
    ensures var p, g := s.dds, s.topics[t];
            var left := h in q.entities && h !in dropped && (h == g.subscriber || h == g.topic ==> OnLoan(p, g));
            left <==> (Owns(g, h) ==> HeldByLoan(p, g, h))
  {
    var p, g := s.dds, s.topics[t];
    assert InvOf(s, t);
    forall r | r in g.readers && g.readers[r] in p.loans && HeldByReader(p, g, h, r)
      ensures h == g.readers[r] || h == g.subscriber || h == g.topic || (OwnsFilter(g, h) && p.entities[h].FilteredTopic?)
      ensures !Gone(p, g, h)
    {
      HeldKind(s, t, h, r);
    }
    if Owns(g, h) {
      OwnedKind(t, g, p, s.listeners, s.rlHandler, s.wlHandler, h);
      if OwnsReader(g, h) && h in p.loans {
        var r :| r in g.readers && g.readers[r] == h;
        assert HeldByReader(p, g, h, r);
      }
      if OnLoan(p, g) {
        var r :| r in g.readers && g.readers[r] in p.loans;
        assert HeldByReader(p, g, g.subscriber, r) && HeldByReader(p, g, g.topic, r);
      }
    }
  }
}
