/** The order-entry client: its live orders, its callbacks, and the loops that read the exchange's responses. */
module OeClients {
  import opened Market
  import opened Responses

  class OeClient {
    const handlers: Handlers
    var liveOrders: set<OrderId>
    var history: seq<Callback>      // callbacks fired
    var incoming: seq<Response>     // responses not yet read
    var deletes: seq<OrderId>       // delete requests sent

    function View(): Connection
      reads this
    {
      Connection(Client(liveOrders, history), incoming)
    }

    constructor (handlers: Handlers, incoming: seq<Response>)
      ensures View() == Connection(Client({}, []), incoming) && deletes == [] && this.handlers == handlers
    {
      this.handlers := handlers;
      liveOrders, history, this.incoming, deletes := {}, [], incoming, [];
    }

    method ReadResponse() returns (r: Response)
      requires incoming != []
      modifies this`incoming
      ensures r == old(incoming)[0] && incoming == old(incoming)[1..]
    {
      r := incoming[0];
      incoming := incoming[1..];
    }

    method WaitForResponse(expected: OrderId, expired: bool) returns (ok: bool)
      modifies this`liveOrders, this`history, this`incoming
      ensures View() == Call(handlers, old(View()), ForResponse(expected, expired))
      ensures ok == Reads(ForResponse(expected, expired), old(incoming)).1
    {
      ghost var w, before, n := ForResponse(expected, expired), View(), 0;
      ReadsWithin(w, before.stream);
      Start(handlers, before);
      if expired {
        return false;
      }
      while true
        invariant Midway(handlers, before, View(), n)
        invariant Reads(w, before.stream) == (n + Reads(w, incoming).0, Reads(w, incoming).1)
        decreases incoming
      {
        if incoming == [] {
          return false;
        }
        ghost var here := View();
        var r := ReadResponse();
        match r {
          case Ack(id) =>
            liveOrders := liveOrders + {id};
          case Reject(id, reason) =>
            if handlers.onReject { history := history + [Rejected(id)]; }
          case Fill(id, qty, price, flags) =>
            if handlers.onFill { history := history + [Filled(id, qty, price, flags == CLOSED)]; }
            if flags == CLOSED { liveOrders := liveOrders - {id}; }
          case Close(id) =>
            liveOrders := liveOrders - {id};
            if handlers.onClose { history := history + [Closed(id)]; }
          case OtherResponse =>
        }
        MidwayStep(handlers, before, here, n);
        n := n + 1;
        if r.Ack? && r.id == expected { return true; }
        if r.Reject? && r.id == expected { return r.reason == UNKNOWN_ORDER_ID; }
        if (r.Fill? && r.flags == CLOSED) || r.Close? { return true; }
      }
    }

    method WaitForFill(expected: OrderId, budget: nat) returns (ok: bool)
      modifies this`liveOrders, this`history, this`incoming
      ensures View() == Call(handlers, old(View()), ForFill(expected, budget))
      ensures ok == Reads(ForFill(expected, budget), old(incoming)).1
    {
      ghost var before, n := View(), 0;
      var left := budget;
      ReadsWithin(ForFill(expected, budget), before.stream);
      Start(handlers, before);
      while true
        invariant Midway(handlers, before, View(), n)
        invariant
          var now := Reads(ForFill(expected, left), incoming);
          Reads(ForFill(expected, budget), before.stream) == (n + now.0, now.1)
        decreases incoming
      {
        if left == 0 || incoming == [] {
          return false;
        }
        left := left - 1;
        ghost var here := View();
        var r := ReadResponse();
        match r {
          case Fill(id, qty, price, flags) =>
            if handlers.onFill { history := history + [Filled(id, qty, price, flags == CLOSED)]; }
            if flags == CLOSED { liveOrders := liveOrders - {id}; }
          case Ack(id) =>
            liveOrders := liveOrders + {id};
          case Reject(id, reason) =>
            if handlers.onReject { history := history + [Rejected(id)]; }
          case Close(id) =>
            liveOrders := liveOrders - {id};
            if handlers.onClose { history := history + [Closed(id)]; }
          case OtherResponse =>
        }
        MidwayStep(handlers, before, here, n);
        n := n + 1;
        if r.Fill? && r.id == expected && r.flags == CLOSED { return true; }
        if (r.Reject? || r.Close?) && r.id == expected { return false; }
      }
    }

    method DeleteOrder(id: OrderId, expired: bool) returns (ok: bool)
      modifies this
      ensures View() == Call(handlers, old(View()), ForResponse(id, expired))
      ensures deletes == old(deletes) + [id]
    {
      deletes := deletes + [id];
      ok := WaitForResponse(id, expired);
    }

    /** Ask for every order live at the start to be deleted, once each. The responses read on the way are a prefix of
        what was incoming, and leave exactly what reading that prefix leaves. */
    method CancelAllOpenOrders(expired: set<OrderId>) returns (ghost n: nat)
      modifies this
      ensures n <= |old(incoming)| && Midway(handlers, old(View()), View(), n)
      ensures multiset(deletes) == old(multiset(deletes)) + multiset(old(liveOrders))
    {
      var toCancel := liveOrders;
      ghost var before, asked: set<OrderId> := View(), {};
      n := 0;
      Start(handlers, before);
      while toCancel != {}
        invariant toCancel !! asked && toCancel + asked == old(liveOrders)
        invariant n <= |before.stream| && Midway(handlers, before, View(), n)
        invariant multiset(deletes) == old(multiset(deletes)) + multiset(asked)
        decreases toCancel
      {
        var id :| id in toCancel;
        toCancel := toCancel - {id};
        ghost var here := View();
        var ok := DeleteOrder(id, id in expired);
        n := MidwayCall(handlers, before, here, n, ForResponse(id, id in expired));
        assert multiset(asked + {id}) == multiset(asked) + multiset{id};
        asked := asked + {id};
      }
      assert asked == old(liveOrders);
    }
  }
}
