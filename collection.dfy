/**
 * The server's in-memory ticket collection: a deque of tickets kept in insertion
 * order, plus the id allocator it records ids in. Mutating operations are methods
 * of ServerCollectionManager; each is specified by a function of the old contents,
 * and the laws of those functions are lemmas here.
 */
module Collection {
  import opened Wrappers
  import opened Data
  import opened Errors
  import opened Ids
  import opened Validation
  import opened Comparators

  // ---------------------------------------------------------------- identity

  function Handles(s: seq<Ticket>): set<nat>
  {
    set i | 0 <= i < |s| :: s[i].handle
  }

  /** No ticket object occurs twice in the deque. */
  predicate HandlesDistinct(s: seq<Ticket>)
  {
    forall i, j :: 0 <= i < j < |s| ==> s[i].handle != s[j].handle
  }

  predicate AllComparable(s: seq<Ticket>)
  {
    forall i :: 0 <= i < |s| ==> Comparable(s[i])
  }

  predicate AllDated(s: seq<Ticket>)
  {
    forall i :: 0 <= i < |s| ==> s[i].creationDate.Some?
  }

  predicate AllTyped(s: seq<Ticket>)
  {
    forall i :: 0 <= i < |s| ==> s[i].ticketType.Some?
  }

  // ---------------------------------------------------------------- lookup by id

  /** Position of the first ticket carrying `id`, as `filter(...).findFirst()` finds it. */
  function IndexOfId(s: seq<Ticket>, id: int32): (r: Option<nat>)
    ensures r.Some? ==> r.value < |s| && s[r.value].id == id
    ensures r.Some? ==> forall j :: 0 <= j < r.value ==> s[j].id != id
    ensures r.None? <==> forall j :: 0 <= j < |s| ==> s[j].id != id
  {
    if s == [] then None
    else if s[0].id == id then Some(0)
    else match IndexOfId(s[1..], id)
      case None => None
      case Some(k) => Some(k + 1)
  }

  const NoSuchId: Error := Error(WrongArgument, "Билета с таким id нет в коллекции.")
  const NullTicket: Error := Error(WrongArgument, "Билет не может быть null.")
  const AlreadyContained: Error := Error(WrongArgument, "Билет уже содержится в данной коллекции.")
  const NullRemoval: Error := Error(Remove, "Удаляемый элемент не может быть null.")
  const NothingLowerThanNull: Error := Error(Remove, "Не может быть элементов меньше null.")
  const NoMaximum: Error := Error(EmptyCollection, "Невозможно найти максимальный элемент.")

  // ---------------------------------------------------------------- update

  /** The object after the six setters: id, handle and owner are kept. */
  function Overwritten(current: Ticket, replacement: Ticket): (r: Ticket)
    ensures r.id == current.id && r.handle == current.handle && r.owner == current.owner
    ensures SameComparedFields(r, replacement) && r.creationDate == replacement.creationDate
  {
    current.(name := replacement.name, coordinates := replacement.coordinates, price := replacement.price,
         creationDate := replacement.creationDate, ticketType := replacement.ticketType,
         person := replacement.person)
  }

  // ---------------------------------------------------------------- removal by identity

  /** `ArrayDeque.remove(o)`: drop the first occurrence of the object, if any. */
  function RemoveFirst(s: seq<Ticket>, h: nat): (r: seq<Ticket>)
    ensures h !in Handles(s) ==> r == s
    ensures h in Handles(s) ==> |r| == |s| - 1
    ensures multiset(r) <= multiset(s)
  {
    if s == [] then []
    else
      assert s == [s[0]] + s[1..];
      HandlesOfHead(s);
      if s[0].handle == h then s[1..]
      else [s[0]] + RemoveFirst(s[1..], h)
  }

  /** Every ticket except the given object. */
  function Without(s: seq<Ticket>, h: nat): (r: seq<Ticket>)
    ensures |r| <= |s|
    ensures Handles(r) == Handles(s) - {h}
  {
    if s == [] then []
    else
      var head := if s[0].handle == h then [] else [s[0]];
      HandlesOfHead(s);
      HandlesAppend(head, Without(s[1..], h));
      HandlesOfOne(s[0]);
      assert Handles(head) == if s[0].handle == h then {} else {s[0].handle};
      head + Without(s[1..], h)
  }

  lemma HandlesAppend(a: seq<Ticket>, b: seq<Ticket>)
    ensures Handles(a + b) == Handles(a) + Handles(b)
  {
    var r := a + b;
    forall h | h in Handles(r) ensures h in Handles(a) + Handles(b) {
      var i :| 0 <= i < |r| && r[i].handle == h;
      if i >= |a| {
        assert b[i - |a|] == r[i];
      }
    }
    forall h | h in Handles(a) ensures h in Handles(r) {
      var i :| 0 <= i < |a| && a[i].handle == h;
      assert r[i] == a[i];
    }
    forall h | h in Handles(b) ensures h in Handles(r) {
      var i :| 0 <= i < |b| && b[i].handle == h;
      assert r[|a| + i] == b[i];
    }
  }

  lemma HandlesOfHead(s: seq<Ticket>)
    requires s != []
    ensures Handles(s) == {s[0].handle} + Handles(s[1..])
  {
    assert s == [s[0]] + s[1..];
    HandlesAppend([s[0]], s[1..]);
  }

  /** With distinct handles, removing the first occurrence removes the only one. */
  lemma {:induction false} RemoveFirstIsWithout(s: seq<Ticket>, h: nat)
    requires HandlesDistinct(s)
    ensures RemoveFirst(s, h) == Without(s, h)
    ensures HandlesDistinct(RemoveFirst(s, h))
    ensures h !in Handles(RemoveFirst(s, h))
    ensures |RemoveFirst(s, h)| == if h in Handles(s) then |s| - 1 else |s|
  {
    if s != [] {
      RemoveFirstIsWithout(s[1..], h);
      if s[0].handle == h {
        WithoutAbsent(s[1..], h);
      } else {
        RemoveFirstPastHead(s, h);
      }
    }
  }

  /** The step of RemoveFirstIsWithout when the head is kept. */
  lemma RemoveFirstPastHead(s: seq<Ticket>, h: nat)
    requires s != [] && s[0].handle != h && HandlesDistinct(s)
    requires RemoveFirst(s[1..], h) == Without(s[1..], h) && HandlesDistinct(RemoveFirst(s[1..], h))
    ensures RemoveFirst(s, h) == Without(s, h)
    ensures HandlesDistinct(RemoveFirst(s, h))
  {
    var rest := RemoveFirst(s[1..], h);
    assert RemoveFirst(s, h) == [s[0]] + rest;
    assert Without(s, h) == [s[0]] + Without(s[1..], h);
    HeadNotInTail(s);
    ConsDistinct(s[0], rest);
  }

  lemma HandlesOfOne(x: Ticket)
    ensures Handles([x]) == {x.handle}
  {
    assert [x][0] == x;
  }

  lemma HeadNotInTail(s: seq<Ticket>)
    requires s != [] && HandlesDistinct(s)
    ensures s[0].handle !in Handles(s[1..])
  {
    assert forall i :: 0 <= i < |s| - 1 ==> s[1..][i] == s[i + 1];
  }

  lemma ConsDistinct(x: Ticket, rest: seq<Ticket>)
    requires HandlesDistinct(rest) && x.handle !in Handles(rest)
    ensures HandlesDistinct([x] + rest)
  {
    var r := [x] + rest;
    forall i, j | 0 <= i < j < |r| ensures r[i].handle != r[j].handle {
      assert r[j] == rest[j - 1];
      if i > 0 {
        assert r[i] == rest[i - 1];
      } else {
        assert rest[j - 1].handle in Handles(rest);
      }
    }
  }

  lemma {:induction false} WithoutAbsent(s: seq<Ticket>, h: nat)
    requires forall i :: 0 <= i < |s| ==> s[i].handle != h
    ensures Without(s, h) == s
  {
    if s != [] {
      WithoutAbsent(s[1..], h);
    }
  }

  lemma {:induction false} RemoveFirstShrinksHandles(s: seq<Ticket>, h: nat)
    ensures Handles(RemoveFirst(s, h)) <= Handles(s)
  {
    if s != [] {
      HandlesOfHead(s);
      if s[0].handle != h {
        RemoveFirstShrinksHandles(s[1..], h);
        HandlesAppend([s[0]], RemoveFirst(s[1..], h));
      }
    }
  }

  // ---------------------------------------------------------------- remove lower

  /** `removeIf(t -> t.compareTo(ticket) < 0)`: the tickets not below `t`, in order. */
  function NotLower(s: seq<Ticket>, t: Ticket): (r: seq<Ticket>)
    requires AllComparable(s) && Comparable(t)
    ensures |r| <= |s|
  {
    if s == [] then []
    else (if CompareTickets(s[0], t) < 0 then [] else [s[0]]) + NotLower(s[1..], t)
  }

  /** How many tickets lie below `t`. */
  function CountLower(s: seq<Ticket>, t: Ticket): (n: nat)
    requires AllComparable(s) && Comparable(t)
    ensures n <= |s|
    ensures n == 0 <==> forall k :: 0 <= k < |s| ==> CompareTickets(s[k], t) >= 0
  {
    if s == [] then 0 else (if CompareTickets(s[0], t) < 0 then 1 else 0) + CountLower(s[1..], t)
  }

  /** A ticket survives exactly when it is in the deque and not below `t`. */
  lemma {:induction false} NotLowerMembers(s: seq<Ticket>, t: Ticket, x: Ticket)
    requires AllComparable(s) && Comparable(t)
    ensures x in NotLower(s, t) <==> x in s && CompareTickets(x, t) >= 0
  {
    if s != [] {
      NotLowerMembers(s[1..], t, x);
      assert s == [s[0]] + s[1..];
    }
  }

  /** The survivors keep their relative order: the filter distributes over concatenation. */
  lemma {:induction false} NotLowerKeepsOrder(s1: seq<Ticket>, s2: seq<Ticket>, t: Ticket)
    requires AllComparable(s1) && AllComparable(s2) && Comparable(t)
    ensures AllComparable(s1 + s2)
    ensures NotLower(s1 + s2, t) == NotLower(s1, t) + NotLower(s2, t)
  {
    if s1 != [] {
      var s := s1 + s2;
      assert s[0] == s1[0] && s[1..] == s1[1..] + s2;
      assert AllComparable(s1[1..]);
      NotLowerKeepsOrder(s1[1..], s2, t);
      assert AllComparable(s) by {
        assert forall i :: 0 < i < |s| ==> s[i] == s[1..][i - 1];
      }
    } else {
      assert s1 + s2 == s2;
    }
  }

  /** The number of tickets removed is the number of tickets below `t`. */
  lemma {:induction false} NotLowerCount(s: seq<Ticket>, t: Ticket)
    requires AllComparable(s) && Comparable(t)
    ensures |s| - |NotLower(s, t)| == CountLower(s, t)
  {
    if s != [] {
      NotLowerCount(s[1..], t);
    }
  }

  /** Removing the lower tickets twice removes nothing more. */
  lemma {:induction false} NotLowerIdempotent(s: seq<Ticket>, t: Ticket)
    requires AllComparable(s) && Comparable(t)
    ensures AllComparable(NotLower(s, t))
    ensures NotLower(NotLower(s, t), t) == NotLower(s, t)
  {
    if s != [] {
      NotLowerIdempotent(s[1..], t);
      var rest := NotLower(s[1..], t);
      if CompareTickets(s[0], t) >= 0 {
        assert NotLower(s, t) == [s[0]] + rest;
        assert ([s[0]] + rest)[0] == s[0];
        assert ([s[0]] + rest)[1..] == rest;
      } else {
        assert NotLower(s, t) == rest;
      }
    }
  }

  lemma {:induction false} NotLowerKeepsHandlesDistinct(s: seq<Ticket>, t: Ticket)
    requires AllComparable(s) && Comparable(t) && HandlesDistinct(s)
    ensures HandlesDistinct(NotLower(s, t)) && Handles(NotLower(s, t)) <= Handles(s)
  {
    if s != [] {
      NotLowerKeepsHandlesDistinct(s[1..], t);
      var rest := NotLower(s[1..], t);
      HandlesOfHead(s);
      if CompareTickets(s[0], t) >= 0 {
        HandlesAppend([s[0]], rest);
        assert s[0].handle !in Handles(s[1..]);
      } else {
        assert NotLower(s, t) == rest;
      }
    }
  }

  // ---------------------------------------------------------------- filter by type

  /** `filter(t -> t.getType().equals(type))`, in deque order. */
  function OfType(s: seq<Ticket>, ticketType: TicketType): (r: seq<Ticket>)
    requires AllTyped(s)
    ensures |r| <= |s|
    ensures forall k :: 0 <= k < |r| ==> r[k].ticketType == Some(ticketType)
  {
    if s == [] then []
    else (if s[0].ticketType.value == ticketType then [s[0]] else []) + OfType(s[1..], ticketType)
  }

  lemma {:induction false} OfTypeMembers(s: seq<Ticket>, ticketType: TicketType, x: Ticket)
    requires AllTyped(s)
    ensures x in OfType(s, ticketType) <==> x in s && x.ticketType == Some(ticketType)
  {
    if s != [] {
      OfTypeMembers(s[1..], ticketType, x);
      assert s == [s[0]] + s[1..];
    }
  }

  lemma {:induction false} OfTypeKeepsOrder(s1: seq<Ticket>, s2: seq<Ticket>, ticketType: TicketType)
    requires AllTyped(s1) && AllTyped(s2)
    ensures AllTyped(s1 + s2)
    ensures OfType(s1 + s2, ticketType) == OfType(s1, ticketType) + OfType(s2, ticketType)
  {
    if s1 != [] {
      assert (s1 + s2)[1..] == s1[1..] + s2;
      OfTypeKeepsOrder(s1[1..], s2, ticketType);
    } else {
      assert s1 + s2 == s2;
    }
  }

  /** The four type filters split the deque: their sizes add up to its size. */
  lemma {:induction false} OfTypePartition(s: seq<Ticket>)
    requires AllTyped(s)
    ensures |OfType(s, VIP)| + |OfType(s, USUAL)| + |OfType(s, BUDGETARY)| + |OfType(s, CHEAP)| == |s|
  {
    if s != [] {
      OfTypePartition(s[1..]);
    }
  }

  // ---------------------------------------------------------------- maxima

  /**
   * `stream().max(comparator)`: a left fold that keeps the current candidate
   * unless the next element compares strictly greater, so ties keep the earlier one.
   */
  function MaxByDate(s: seq<Ticket>): (r: Ticket)
    requires |s| > 0 && AllDated(s)
    ensures r in s
  {
    if |s| == 1 then s[0]
    else
      var best := MaxByDate(s[..|s| - 1]);
      if CompareByDate(best, s[|s| - 1]) >= 0 then best else s[|s| - 1]
  }

  lemma {:induction false} MaxByDateIsMaximum(s: seq<Ticket>)
    requires |s| > 0 && AllDated(s)
    ensures forall i :: 0 <= i < |s| ==> CompareByDate(MaxByDate(s), s[i]) >= 0
  {
    if |s| > 1 {
      var init := s[..|s| - 1];
      MaxByDateIsMaximum(init);
      var best := MaxByDate(init);
      var last := s[|s| - 1];
      forall i | 0 <= i < |s| ensures CompareByDate(MaxByDate(s), s[i]) >= 0 {
        if i < |s| - 1 {
          assert s[i] == init[i];
          if CompareByDate(best, last) < 0 {
            ByDateAntisymmetric(best, last);
            ByDateTransitive(last, best, s[i]);
          }
        }
      }
    }
  }

  /**
   * Among tickets with the latest date, the one returned is the first: every
   * ticket before it in the deque is strictly earlier.
   */
  lemma {:induction false} MaxByDateIsFirst(s: seq<Ticket>)
    requires |s| > 0 && AllDated(s)
    ensures exists i :: 0 <= i < |s| && s[i] == MaxByDate(s) && forall j :: 0 <= j < i ==> CompareByDate(s[j], s[i]) < 0
  {
    if |s| == 1 {
      assert s[0] == MaxByDate(s);
    } else {
      var init := s[..|s| - 1];
      var last := s[|s| - 1];
      MaxByDateIsFirst(init);
      var best := MaxByDate(init);
      if CompareByDate(best, last) >= 0 {
        var i :| 0 <= i < |init| && init[i] == best && forall j :: 0 <= j < i ==> CompareByDate(init[j], init[i]) < 0;
        assert s[i] == best;
        forall j | 0 <= j < i ensures CompareByDate(s[j], s[i]) < 0 {
          assert s[j] == init[j];
        }
      } else {
        MaxByDateIsMaximum(init);
        forall j | 0 <= j < |s| - 1 ensures CompareByDate(s[j], last) < 0 {
          assert s[j] == init[j];
          assert CompareByDate(best, init[j]) >= 0;
        }
        assert s[|s| - 1] == MaxByDate(s);
      }
    }
  }

  function MaxTicket(s: seq<Ticket>): (r: Ticket)
    requires |s| > 0 && AllComparable(s)
    ensures r in s
  {
    if |s| == 1 then s[0]
    else
      var best := MaxTicket(s[..|s| - 1]);
      if CompareTickets(best, s[|s| - 1]) >= 0 then best else s[|s| - 1]
  }

  /** One step of the fold: the kept candidate is at least everything the old candidate was, and the new element. */
  lemma MaxTicketStep(best: Ticket, last: Ticket, x: Ticket)
    requires Comparable(best) && Comparable(last) && Comparable(x)
    requires CompareTickets(best, x) >= 0
    ensures var kept := if CompareTickets(best, last) >= 0 then best else last;
      CompareTickets(kept, x) >= 0 && CompareTickets(kept, last) >= 0
  {
    CompareTicketsAntisymmetric(best, x);
    CompareTicketsAntisymmetric(last, x);
    CompareTicketsAntisymmetric(best, last);
    CompareTicketsTransitive(x, best, last);
    CompareTicketsReflexive(last);
  }

  lemma {:induction false} MaxTicketIsMaximum(s: seq<Ticket>)
    requires |s| > 0 && AllComparable(s)
    ensures forall i :: 0 <= i < |s| ==> CompareTickets(MaxTicket(s), s[i]) >= 0
  {
    if |s| > 1 {
      var init := s[..|s| - 1];
      MaxTicketIsMaximum(init);
      var best := MaxTicket(init);
      var last := s[|s| - 1];
      forall i | 0 <= i < |s| ensures CompareTickets(MaxTicket(s), s[i]) >= 0 {
        if i < |s| - 1 {
          assert s[i] == init[i];
          MaxTicketStep(best, last, s[i]);
        } else {
          MaxTicketStep(best, last, best);
        }
      }
    } else {
      CompareTicketsReflexive(s[0]);
    }
  }

  /**
   * Among tickets that compare greatest, the one returned is the first: every
   * ticket before it in the deque compares strictly less.
   */
  lemma {:induction false} MaxTicketIsFirst(s: seq<Ticket>)
    requires |s| > 0 && AllComparable(s)
    ensures exists i :: 0 <= i < |s| && s[i] == MaxTicket(s) && forall j :: 0 <= j < i ==> CompareTickets(s[j], s[i]) < 0
  {
    if |s| == 1 {
      assert s[0] == MaxTicket(s);
    } else {
      var init := s[..|s| - 1];
      var last := s[|s| - 1];
      MaxTicketIsFirst(init);
      var best := MaxTicket(init);
      if CompareTickets(best, last) >= 0 {
        var i :| 0 <= i < |init| && init[i] == best && forall j :: 0 <= j < i ==> CompareTickets(init[j], init[i]) < 0;
        assert s[i] == best;
        forall j | 0 <= j < i ensures CompareTickets(s[j], s[i]) < 0 {
          assert s[j] == init[j];
        }
      } else {
        MaxTicketIsMaximum(init);
        CompareTicketsAntisymmetric(best, last);
        forall j | 0 <= j < |s| - 1 ensures CompareTickets(s[j], last) < 0 {
          assert s[j] == init[j];
          CompareTicketsAntisymmetric(best, init[j]);
          CompareTicketsTransitive(init[j], best, last);
        }
        assert s[|s| - 1] == MaxTicket(s);
      }
    }
  }

  // ---------------------------------------------------------------- loading

  /** The deque and the allocator together. */
  datatype Store = Store(tickets: seq<Ticket>, ids: IdState)

  /**
   * One iteration of `fillCollection`: a ticket that passes the validator is added
   * (`addTicket` refuses an object already present; that failure is only printed).
   */
  function FillStep(st: Store, t: Ticket): (r: Store)
    ensures IsValidTicket(t, st.ids.used) && t.handle !in Handles(st.tickets) <==> r.tickets == st.tickets + [t]
    ensures r.tickets == st.tickets + [t] ==> r.ids == AfterAdd(st.ids, t.id)
    ensures r.tickets != st.tickets + [t] ==> r == st
  {
    if IsValidTicket(t, st.ids.used) && t.handle !in Handles(st.tickets)
    then Store(st.tickets + [t], AfterAdd(st.ids, t.id))
    else st
  }

  function Fill(st: Store, ts: seq<Ticket>): (r: Store)
    ensures |st.tickets| <= |r.tickets| <= |st.tickets| + |ts|
    ensures r.tickets[..|st.tickets|] == st.tickets
  {
    if ts == [] then st else FillStep(Fill(st, ts[..|ts| - 1]), ts[|ts| - 1])
  }

  /** `a` is `b` with some elements left out. */
  predicate IsSubsequence(a: seq<Ticket>, b: seq<Ticket>)
  {
    a == [] ||
    (b != [] &&
     ((a[|a| - 1] == b[|b| - 1] && IsSubsequence(a[..|a| - 1], b[..|b| - 1])) || IsSubsequence(a, b[..|b| - 1])))
  }

  /**
   * `r` is `st` with tickets appended whose ids were not recorded in `st`, are
   * recorded in `r`, and are pairwise distinct.
   */
  ghost predicate ExtendsFreshly(st: Store, r: Store)
  {
    && |st.tickets| <= |r.tickets|
    && r.tickets[..|st.tickets|] == st.tickets
    && st.ids.used <= r.ids.used
    && (forall i :: |st.tickets| <= i < |r.tickets| ==> r.tickets[i].id !in st.ids.used && r.tickets[i].id in r.ids.used)
    && (forall i, j :: |st.tickets| <= i < j < |r.tickets| ==> r.tickets[i].id != r.tickets[j].id)
  }

  lemma StepExtendsFreshly(st: Store, r: Store, t: Ticket)
    requires ExtendsFreshly(st, r)
    ensures ExtendsFreshly(st, FillStep(r, t))
  {
    var n := |st.tickets|;
    if IsValidTicket(t, r.ids.used) && t.handle !in Handles(r.tickets) {
      var r' := FillStep(r, t);
      assert r'.tickets == r.tickets + [t];
      assert r'.ids.used == r.ids.used + {t.id};
      assert r'.tickets[..n] == r.tickets[..n];
      forall i | n <= i < |r'.tickets| - 1
        ensures r'.tickets[i] == r.tickets[i] && r'.tickets[i].id != t.id
      {
        assert r.tickets[i].id in r.ids.used;
      }
    }
  }

  /**
   * Loading keeps the existing tickets in front and appends tickets whose ids
   * were not recorded before loading, no two of them sharing an id, and all
   * their ids end up recorded.
   */
  lemma {:induction false} FillAppendsFreshTickets(st: Store, ts: seq<Ticket>)
    ensures ExtendsFreshly(st, Fill(st, ts))
  {
    if ts != [] {
      FillAppendsFreshTickets(st, ts[..|ts| - 1]);
      StepExtendsFreshly(st, Fill(st, ts[..|ts| - 1]), ts[|ts| - 1]);
    }
  }

  /** What loading appends is the given list with some tickets left out, in list order. */
  lemma {:induction false} FillAppendsSubsequence(st: Store, ts: seq<Ticket>)
    ensures |st.tickets| <= |Fill(st, ts).tickets|
    ensures IsSubsequence(Fill(st, ts).tickets[|st.tickets|..], ts)
  {
    if ts != [] {
      var init := ts[..|ts| - 1];
      var last := ts[|ts| - 1];
      FillAppendsSubsequence(st, init);
      var mid := Fill(st, init);
      var n := |st.tickets|;
      var a := mid.tickets[n..];
      if IsValidTicket(last, mid.ids.used) && last.handle !in Handles(mid.tickets) {
        var a' := Fill(st, ts).tickets[n..];
        assert a' == a + [last];
        assert a'[..|a'| - 1] == a;
      }
    }
  }

  /**
   * Each ticket of the list is decided against the state loading has reached
   * when it comes to it: appended exactly when it passes the validator against
   * the ids recorded so far and is not an object already in the deque;
   * otherwise nothing changes.
   */
  lemma FillDecidesEachTicket(st: Store, ts: seq<Ticket>, k: nat)
    requires k < |ts|
    ensures var before := Fill(st, ts[..k]);
      IsValidTicket(ts[k], before.ids.used) && ts[k].handle !in Handles(before.tickets)
      <==> Fill(st, ts[..k + 1]).tickets == before.tickets + [ts[k]]
    ensures var before := Fill(st, ts[..k]);
      Fill(st, ts[..k + 1]).tickets != before.tickets + [ts[k]] ==> Fill(st, ts[..k + 1]) == before
  {
    assert ts[..k + 1][..k] == ts[..k];
  }

  /**
   * Every ticket appended to `st` in `r` passed the validator against the ids
   * recorded at that moment (the original ones plus those of the tickets
   * appended before it) and was not an object already in the deque; the
   * recorded ids grew by exactly the appended tickets' ids.
   */
  ghost predicate AppendsOnlyValid(st: Store, r: Store)
    requires |st.tickets| <= |r.tickets|
  {
    var n := |st.tickets|;
    && r.ids.used == st.ids.used + IdsOf(r.tickets[n..])
    && forall i :: n <= i < |r.tickets| ==>
        && IsValidTicket(r.tickets[i], st.ids.used + IdsOf(r.tickets[n..i]))
        && r.tickets[i].handle !in Handles(r.tickets[..i])
  }

  lemma StepAppendsOnlyValid(st: Store, mid: Store, t: Ticket)
    requires |st.tickets| <= |mid.tickets| && AppendsOnlyValid(st, mid)
    ensures |st.tickets| <= |FillStep(mid, t).tickets| && AppendsOnlyValid(st, FillStep(mid, t))
  {
    var n := |st.tickets|;
    var r := FillStep(mid, t);
    if r.tickets == mid.tickets + [t] {
      assert r.tickets[n..] == mid.tickets[n..] + [t];
      IdsOfSnoc(r.tickets[n..]);
      assert r.tickets[n..][..|r.tickets[n..]| - 1] == mid.tickets[n..];
      forall i | n <= i < |r.tickets|
        ensures IsValidTicket(r.tickets[i], st.ids.used + IdsOf(r.tickets[n..i]))
        ensures r.tickets[i].handle !in Handles(r.tickets[..i])
      {
        if i < |mid.tickets| {
          assert r.tickets[i] == mid.tickets[i];
          assert r.tickets[n..i] == mid.tickets[n..i];
          assert r.tickets[..i] == mid.tickets[..i];
        } else {
          assert r.tickets[n..i] == mid.tickets[n..];
          assert r.tickets[..i] == mid.tickets;
        }
      }
    }
  }

  /** Loading appends only tickets that passed the validator when they were reached. */
  lemma {:induction false} FillAppendsOnlyValid(st: Store, ts: seq<Ticket>)
    ensures AppendsOnlyValid(st, Fill(st, ts))
  {
    if ts == [] {
      assert Fill(st, ts).tickets[|st.tickets|..] == [];
    } else {
      FillAppendsOnlyValid(st, ts[..|ts| - 1]);
      StepAppendsOnlyValid(st, Fill(st, ts[..|ts| - 1]), ts[|ts| - 1]);
    }
  }

  function IdsOf(ts: seq<Ticket>): set<int32>
  {
    set i | 0 <= i < |ts| :: ts[i].id
  }

  lemma IdsOfSnoc(ts: seq<Ticket>)
    requires ts != []
    ensures IdsOf(ts) == IdsOf(ts[..|ts| - 1]) + {ts[|ts| - 1].id}
  {
    var init := ts[..|ts| - 1];
    forall x | x in IdsOf(ts) ensures x in IdsOf(init) + {ts[|ts| - 1].id} {
      var i :| 0 <= i < |ts| && ts[i].id == x;
      if i < |ts| - 1 {
        assert init[i] == ts[i];
      }
    }
    forall x | x in IdsOf(init) ensures x in IdsOf(ts) {
      var i :| 0 <= i < |init| && init[i].id == x;
      assert ts[i] == init[i];
    }
  }

  /**
   * When every ticket is valid against the ids recorded before it and all objects
   * are new and distinct, loading appends the whole list.
   */
  lemma {:induction false} FillAcceptsValidList(st: Store, ts: seq<Ticket>)
    requires forall i :: 0 <= i < |ts| ==> IsValidTicket(ts[i], st.ids.used + IdsOf(ts[..i]))
    requires forall i :: 0 <= i < |ts| ==> ts[i].handle !in Handles(st.tickets)
    requires forall i, j :: 0 <= i < j < |ts| ==> ts[i].handle != ts[j].handle
    ensures Fill(st, ts).tickets == st.tickets + ts
    ensures Fill(st, ts).ids.used == st.ids.used + IdsOf(ts)
  {
    if ts != [] {
      var init := ts[..|ts| - 1];
      forall i | 0 <= i < |init|
        ensures IsValidTicket(init[i], st.ids.used + IdsOf(init[..i]))
      {
        assert init[..i] == ts[..i];
      }
      FillAcceptsValidList(st, init);
      assert ts[|ts| - 1].handle !in Handles(init);
      AcceptLast(st, ts);
    }
  }

  lemma AcceptLast(st: Store, ts: seq<Ticket>)
    requires ts != []
    requires Fill(st, ts[..|ts| - 1]).tickets == st.tickets + ts[..|ts| - 1]
    requires Fill(st, ts[..|ts| - 1]).ids.used == st.ids.used + IdsOf(ts[..|ts| - 1])
    requires IsValidTicket(ts[|ts| - 1], st.ids.used + IdsOf(ts[..|ts| - 1]))
    requires ts[|ts| - 1].handle !in Handles(st.tickets)
    requires ts[|ts| - 1].handle !in Handles(ts[..|ts| - 1])
    ensures Fill(st, ts).tickets == st.tickets + ts
    ensures Fill(st, ts).ids.used == st.ids.used + IdsOf(ts)
  {
    var init := ts[..|ts| - 1];
    HandlesAppend(st.tickets, init);
    IdsOfSnoc(ts);
    assert st.tickets + init + [ts[|ts| - 1]] == st.tickets + ts;
  }

  // ---------------------------------------------------------------- the manager

  class ServerCollectionManager {
    var collection: seq<Ticket>
    const idManager: IdManager

    ghost predicate Valid()
      reads this
    {
      HandlesDistinct(collection)
    }

    constructor (ids: IdManager)
      ensures Valid() && collection == [] && idManager == ids
    {
      collection := [];
      idManager := ids;
    }

    /** The deque together with the allocator's state. */
    function Snapshot(): Store
      reads this, idManager
    {
      Store(collection, idManager.State())
    }

    method ClearCollection()
      modifies this
      ensures Valid() && collection == []
    {
      collection := [];
    }

    /**
     * A null ticket or an object already in the deque is refused with
     * WrongArgumentException and nothing changes; otherwise the ticket is appended
     * and its id recorded.
     */
    method AddTicket(ticket: Option<Ticket>) returns (r: Result<(), Error>)
      requires Valid()
      modifies this, idManager
      ensures Valid()
      ensures r.Failure? <==> ticket.None? || ticket.value.handle in Handles(old(collection))
      ensures r.Failure? ==> r.error == if ticket.None? then NullTicket else AlreadyContained
      ensures r.Failure? ==>
        collection == old(collection) && idManager.State() == old(idManager.State())
      ensures r.Success? ==>
        collection == old(collection) + [ticket.value] && idManager.State() == AfterAdd(old(idManager.State()), ticket.value.id)
    {
      if ticket.None? {
        return Failure(NullTicket);
      }
      var t := ticket.value;
      if t.handle in Handles(collection) {
        return Failure(AlreadyContained);
      }
      collection := collection + [t];
      idManager.AddId(t.id);
      r := Success(());
    }

    /** Adds, in list order, the tickets that pass the validator; failures are only printed. */
    method FillCollection(tickets: seq<Ticket>)
      requires Valid()
      modifies this, idManager
      ensures Valid()
      ensures Store(collection, idManager.State()) == Fill(old(Store(collection, idManager.State())), tickets)
    {
      for i := 0 to |tickets|
        invariant Valid()
        invariant Store(collection, idManager.State()) == Fill(old(Store(collection, idManager.State())), tickets[..i])
      {
        assert tickets[..i + 1][..i] == tickets[..i];
        if IsValidTicket(tickets[i], idManager.idList) {
          var _ := AddTicket(Some(tickets[i]));
        }
      }
      assert tickets[..|tickets|] == tickets;
    }

    /** The first ticket with that id, or WrongArgumentException. */
    function GetById(id: int32): (r: Result<Ticket, Error>)
      reads this
      ensures r.Failure? <==> forall j :: 0 <= j < |collection| ==> collection[j].id != id
      ensures r.Failure? ==> r.error == NoSuchId
      ensures r.Success? ==> r.value.id == id
      ensures r.Success? ==>
        exists k :: 0 <= k < |collection| && collection[k] == r.value && forall j :: 0 <= j < k ==> collection[j].id != id
    {
      match IndexOfId(collection, id)
      case None => Failure(NoSuchId)
      case Some(k) => Success(collection[k])
    }

    /**
     * Copies name, coordinates, price, creation date, type and person of
     * `newTicket` into the first ticket with that id, in place; an unknown id is
     * only printed.
     */
    method UpdateTicket(id: int32, newTicket: Ticket)
      requires Valid()
      modifies this
      ensures Valid()
      ensures match IndexOfId(old(collection), id)
        case None => collection == old(collection)
        case Some(k) => collection == old(collection)[k := Overwritten(old(collection)[k], newTicket)]
    {
      var found := IndexOfId(collection, id);
      if found.Some? {
        var k := found.value;
        collection := collection[k := Overwritten(collection[k], newTicket)];
      }
    }

    /** A null ticket is refused with RemoveException; otherwise that object, if present, leaves the deque. */
    method RemoveTicket(ticket: Option<Ticket>) returns (r: Result<(), Error>)
      requires Valid()
      modifies this
      ensures Valid()
      ensures r.Failure? <==> ticket.None?
      ensures r.Failure? ==> r.error == NullRemoval && collection == old(collection)
      ensures r.Success? ==> collection == Without(old(collection), ticket.value.handle)
    {
      if ticket.None? {
        return Failure(NullRemoval);
      }
      RemoveFirstIsWithout(collection, ticket.value.handle);
      collection := RemoveFirst(collection, ticket.value.handle);
      r := Success(());
    }

    /** Removes and returns the first ticket; an empty deque gives RemoveException. */
    method RemoveHead() returns (r: Result<Ticket, Error>)
      requires Valid()
      modifies this
      ensures Valid()
      ensures r.Failure? <==> old(collection) == []
      ensures r.Failure? ==> r.error == NullRemoval && collection == old(collection)
      ensures r.Success? ==> r.value == old(collection)[0] && collection == old(collection)[1..]
    {
      if collection == [] {
        return Failure(NullRemoval);
      }
      r := Success(collection[0]);
      collection := collection[1..];
    }

    /** Removes every ticket below `ticket`; a null ticket gives RemoveException. */
    method RemoveLower(ticket: Option<Ticket>) returns (r: Result<(), Error>)
      requires Valid() && AllComparable(collection)
      requires ticket.Some? ==> Comparable(ticket.value)
      modifies this
      ensures Valid()
      ensures r.Failure? <==> ticket.None?
      ensures r.Failure? ==> r.error == NothingLowerThanNull && collection == old(collection)
      ensures r.Success? ==> collection == NotLower(old(collection), ticket.value)
    {
      if ticket.None? {
        return Failure(NothingLowerThanNull);
      }
      NotLowerKeepsHandlesDistinct(collection, ticket.value);
      collection := NotLower(collection, ticket.value);
      r := Success(());
    }

    /** The latest-created ticket; an empty deque gives EmptyCollectionException. */
    function GetMaxByDate(): (r: Result<Ticket, Error>)
      requires AllDated(collection)
      reads this
      ensures r.Failure? <==> collection == []
      ensures r.Failure? ==> r.error == NoMaximum
      ensures r.Success? ==> r.value in collection
      ensures r.Success? ==> forall i :: 0 <= i < |collection| ==> CompareByDate(r.value, collection[i]) >= 0
      ensures r.Success? ==>
        exists k :: 0 <= k < |collection| && collection[k] == r.value && forall j :: 0 <= j < k ==> CompareByDate(collection[j], r.value) < 0
    {
      if collection == [] then Failure(NoMaximum)
      else
        MaxByDateIsMaximum(collection);
        MaxByDateIsFirst(collection);
        Success(MaxByDate(collection))
    }

    /** The greatest ticket in the default order, or null for an empty deque. */
    function GetMaxTicket(): (r: Option<Ticket>)
      requires AllComparable(collection)
      reads this
      ensures r.None? <==> collection == []
      ensures r.Some? ==> r.value in collection
      ensures r.Some? ==> forall i :: 0 <= i < |collection| ==> CompareTickets(r.value, collection[i]) >= 0
      ensures r.Some? ==>
        exists k :: 0 <= k < |collection| && collection[k] == r.value && forall j :: 0 <= j < k ==> CompareTickets(collection[j], r.value) < 0
    {
      if collection == [] then None
      else
        MaxTicketIsMaximum(collection);
        MaxTicketIsFirst(collection);
        Some(MaxTicket(collection))
    }

    /** The tickets of the given type, in deque order. */
    function GetFilteredByType(ticketType: TicketType): (r: seq<Ticket>)
      requires AllTyped(collection)
      reads this
      ensures r == OfType(collection, ticketType)
      ensures forall x :: x in r <==> x in collection && x.ticketType == Some(ticketType)
    {
      forall x ensures x in OfType(collection, ticketType) <==> x in collection && x.ticketType == Some(ticketType) {
        OfTypeMembers(collection, ticketType, x);
      }
      OfType(collection, ticketType)
    }
  }
}
