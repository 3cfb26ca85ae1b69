/** Submitting an order to an exchange over a connection that can lose requests and responses. The
    client order id makes a retry look first whether an earlier request was accepted. */
module OrderSubmission {
  import opened Common

  /** What becomes of a request, seen from the next attempt: it never reaches the exchange, it is
      accepted at once, or it is accepted only after the next attempt has looked. */
  datatype Fate = Dropped | Landed | LandsLate

  datatype Reply = Response | Transient | Fatal

  /** One attempt as the environment decides it. */
  datatype Attempt = Attempt(lookupWorks: bool, fate: Fate, reply: Reply) {
    predicate Valid() {
      reply == Response ==> fate == Landed
    }
  }

  /** A placed order is a position in the exchange's book. */
  datatype Outcome = Placed(index: nat) | Raised

  ghost predicate AllValid(attempts: seq<Attempt>) {
    forall i :: 0 <= i < |attempts| ==> attempts[i].Valid()
  }

  function IndexOf(book: seq<string>, id: string): (k: nat)
    ensures k <= |book| && (k < |book| <==> id in book) && (k < |book| ==> book[k] == id)
    ensures forall i :: 0 <= i < k ==> book[i] != id
  {
    if |book| == 0 || book[0] == id then 0 else 1 + IndexOf(book[1..], id)
  }

  function Arrived(book: seq<string>, late: bool, id: string): seq<string> {
    if late then book + [id] else book
  }

  /** The book after all attempts, and the outcome. `late` says that a request of an earlier attempt
      is still on its way. */
  function Submit(book: seq<string>, late: bool, id: string, supported: bool, attempts: seq<Attempt>)
    : (seq<string>, Outcome)
    requires |attempts| > 0
    decreases |attempts|
  {
    var a := attempts[0];
    if supported && a.lookupWorks && id in book then (Arrived(book, late, id), Placed(IndexOf(book, id)))
    else
      var settled := Arrived(book, late, id);
      var after := if a.fate == Landed then settled + [id] else settled;
      if a.reply == Response && a.fate == Landed then (after, Placed(|after| - 1))
      else if a.reply == Transient && |attempts| > 1
      then Submit(after, a.fate == LandsLate, id, supported, attempts[1..])
      else (Arrived(after, a.fate == LandsLate, id), Raised)
  }

  class Exchange {
    /** Client ids of the accepted orders, in order of acceptance. */
    var book: seq<string>
    const supportsFetchOrder: bool

    constructor (supportsFetchOrder: bool)
      ensures book == [] && this.supportsFetchOrder == supportsFetchOrder
    {
      book := [];
      this.supportsFetchOrder := supportsFetchOrder;
    }

    /** What is found is the first order under the id. Nothing is found exactly when the exchange cannot be
        asked, the lookup fails, or there is no such order. */
    method FindExisting(id: string, lookupWorks: bool) returns (found: Option<nat>)
      ensures found.Some? ==>
        && found.value < |book| && book[found.value] == id
        && forall i :: 0 <= i < found.value ==> book[i] != id
      ensures found.None? <==> !supportsFetchOrder || !lookupWorks || id !in book
    {
      if !supportsFetchOrder || !lookupWorks {
        return None;
      }
      found := if id in book then Some(IndexOf(book, id)) else None;
    }

    /** Tries again after a transient error as long as attempts are left; the source allows two. */
    method PlaceOrder(id: string, attempts: seq<Attempt>) returns (outcome: Outcome)
      requires |attempts| > 0 && AllValid(attempts)
      modifies this
      ensures (book, outcome) == Submit(old(book), false, id, supportsFetchOrder, attempts)
    {
      var late := false;
      var k := 0;
      while true
        invariant 0 <= k < |attempts|
        invariant Submit(book, late, id, supportsFetchOrder, attempts[k..])
               == Submit(old(book), false, id, supportsFetchOrder, attempts)
        decreases |attempts| - k
      {
        var a := attempts[k];
        assert attempts[k..][0] == a && attempts[k..][1..] == attempts[k + 1..] && a.Valid();
        var existing := FindExisting(id, a.lookupWorks);
        if late {
          book := book + [id];
        }
        if existing.Some? {
          return Placed(existing.value);
        }
        if a.fate == Landed {
          book := book + [id];
        }
        late := a.fate == LandsLate;
        if a.reply == Response {
          return Placed(|book| - 1);
        }
        if a.reply == Fatal || k + 1 == |attempts| {
          if late {
            book := book + [id];
          }
          return Raised;
        }
        k := k + 1;
      }
    }
  }

  // ------------------------------------------------------------------
  // At most once
  // ------------------------------------------------------------------

  /** How many orders the exchange holds under one client id. */
  function Count(book: seq<string>, id: string): nat {
    multiset(book)[id]
  }

  /** The exchange can be asked, answers truthfully, and has settled each request before the next look. */
  ghost predicate Reliable(supported: bool, attempts: seq<Attempt>) {
    supported && forall i :: 0 <= i < |attempts| ==> attempts[i].lookupWorks && attempts[i].fate != LandsLate
  }

  /** For any pattern of dropped requests and lost responses, and any number of attempts, the exchange
      ends with at most one order under the id, and a returned order is that one. Orders under other
      ids are left alone. */
  lemma {:induction false} AtMostOnce(book: seq<string>, id: string, supported: bool, attempts: seq<Attempt>)
    requires |attempts| > 0 && AllValid(attempts) && Reliable(supported, attempts) && Count(book, id) <= 1
    ensures var (after, outcome) := Submit(book, false, id, supported, attempts);
      && Count(after, id) <= 1 && book <= after
      && (outcome.Placed? ==> outcome.index < |after| && after[outcome.index] == id && Count(after, id) == 1)
      && forall other :: other != id ==> Count(after, other) == Count(book, other)
    decreases |attempts|
  {
    var a := attempts[0];
    if id !in book {
      assert Count(book, id) == 0;
      if a.fate == Landed {
        assert Count(book + [id], id) == 1;
      }
    }
    if !(id in book) && a.reply == Transient && |attempts| > 1 {
      AtMostOnce(if a.fate == Landed then book + [id] else book, id, supported, attempts[1..]);
    }
  }

  /** Submitting again under the same id, as after a crash, changes nothing and finds the first order. */
  lemma ResubmissionFindsTheOrder(book: seq<string>, id: string, supported: bool, attempts: seq<Attempt>)
    requires |attempts| > 0 && Reliable(supported, attempts) && id in book
    ensures Submit(book, false, id, supported, attempts) == (book, Placed(IndexOf(book, id)))
  {
  }

  lemma CountOneMore(book: seq<string>, id: string)
    ensures Count(book + [id], id) == Count(book, id) + 1
    ensures id !in book ==> Count(book, id) == 0
  {
    if id !in book {
      assert id !in multiset(book);
    }
  }

  /** What the last attempt adds to the orders under the id: a late request of an earlier attempt, and
      its own unless it sees one or is lost. */
  lemma LastAttempt(book: seq<string>, late: bool, id: string, supported: bool, a: Attempt)
    requires a.Valid()
    ensures Count(Submit(book, late, id, supported, [a]).0, id) == Count(book, id) + (if late then 1 else 0) +
      if (supported && a.lookupWorks && id in book) || a.fate == Dropped then 0 else 1
  {
    CountOneMore(book, id);
    CountOneMore(book + [id], id);
  }

  /** With two attempts and no earlier order, a double order arises if and only if the first request
      is accepted while its answer is lost to a transient error, the second look does not see it, and
      the second request is accepted too. */
  lemma DoubleOrderIff(book: seq<string>, id: string, supported: bool, first: Attempt, second: Attempt)
    requires id !in book && first.Valid() && second.Valid()
    ensures Count(Submit(book, false, id, supported, [first, second]).0, id) == 2 <==>
      && first.fate != Dropped && first.reply == Transient
      && !(first.fate == Landed && supported && second.lookupWorks)
      && second.fate != Dropped
    ensures Count(Submit(book, false, id, supported, [first, second]).0, id) <= 2
  {
    hide Count;
    CountOneMore(book, id);
    assert [first, second][1..] == [second];
    var after := if first.fate == Landed then book + [id] else book;
    if first.reply == Transient {
      LastAttempt(after, first.fate == LandsLate, id, supported, second);
    }
  }

  /** Requests are settled before the next attempt looks, and the look itself works. */
  predicate Settled(a: Attempt) {
    a.Valid() && a.lookupWorks && a.fate != LandsLate
  }

  /** What a caller can check beforehand: with settled requests and working lookups, no pattern of dropped
      requests and lost responses leads to two orders if and only if the exchange supports the lookup. */
  lemma NeverTwiceIffSupported(book: seq<string>, id: string, supported: bool)
    requires id !in book
    ensures (forall first, second :: Settled(first) && Settled(second) ==>
               Count(Submit(book, false, id, supported, [first, second]).0, id) <= 1) <==> supported
  {
    hide Submit, Count;
    forall first, second | Settled(first) && Settled(second) && supported
      ensures Count(Submit(book, false, id, supported, [first, second]).0, id) <= 1
    {
      DoubleOrderIff(book, id, supported, first, second);
    }
    if !supported {
      var lost, answered := Attempt(true, Landed, Transient), Attempt(true, Landed, Response);
      DoubleOrderIff(book, id, supported, lost, answered);
      assert Settled(lost) && Settled(answered);
    }
  }

  /** Without the lookup, an accepted order whose answer is lost is placed again. */
  lemma TwoOrders(id: string)
    ensures var lost, answered := Attempt(true, Landed, Transient), Attempt(true, Landed, Response);
      Submit([], false, id, false, [lost, answered]) == ([id, id], Placed(1))
  {
    var lost, answered := Attempt(true, Landed, Transient), Attempt(true, Landed, Response);
    assert [lost, answered][1..] == [answered];
    assert [] + [id] + [id] == [id, id];
  }

  /** An order that is accepted and answered at the first attempt is placed once, and returned. */
  lemma AnsweredAtOnce(book: seq<string>, id: string, supported: bool, attempts: seq<Attempt>)
    requires |attempts| > 0 && id !in book && attempts[0].fate == Landed && attempts[0].reply == Response
    ensures Submit(book, false, id, supported, attempts) == (book + [id], Placed(|book|))
  {
  }

  /** When two attempts return an order: the first is answered, or it fails for a moment and the second
      finds what the first left behind or is answered itself. Otherwise they raise. */
  lemma ReturnsIff(book: seq<string>, id: string, supported: bool, first: Attempt, second: Attempt)
    requires id !in book && first.Valid() && second.Valid()
    ensures Submit(book, false, id, supported, [first, second]).1.Placed? <==>
      || first.reply == Response
      || (first.reply == Transient &&
            ((first.fate == Landed && supported && second.lookupWorks) || second.reply == Response))
  {
    assert [first, second][1..] == [second];
  }
}
