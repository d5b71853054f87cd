/** The set of connected peers and the two ways events reach them: a reply
    to one peer and a broadcast to all. A send either succeeds or fails, as
    an oracle says; only a broadcast drops the peers whose send failed. */
module Hub {
  import opened Events

  const WelcomeMessage := "Connected to Ally Speech Service"
  const ServiceVersion := "1.0.0"

  /** The peers a broadcast reaches: the registered ones whose send succeeds. */
  function Reached(clients: set<Client>, ok: Client -> bool): (r: set<Client>)
    ensures r <= clients
    ensures forall c :: c in clients ==> (c in r <==> ok(c))
  {
    set c | c in clients && ok(c)
  }

  /** The peers a broadcast drops: the registered ones whose send fails. */
  function Dropped(clients: set<Client>, ok: Client -> bool): (r: set<Client>)
    ensures r <= clients
    ensures forall c :: c in clients ==> (c in r <==> !ok(c))
  {
    set c | c in clients && !ok(c)
  }

  /** The registered peers split into those reached and those dropped, so
      after a broadcast the registered set is exactly the peers reached. */
  lemma ReachedAndDropped(clients: set<Client>, ok: Client -> bool)
    ensures Reached(clients, ok) + Dropped(clients, ok) == clients
    ensures Reached(clients, ok) * Dropped(clients, ok) == {}
    ensures clients - Dropped(clients, ok) == Reached(clients, ok)
    ensures |Reached(clients, ok)| + |Dropped(clients, ok)| == |clients|
  {
    var r, d := Reached(clients, ok), Dropped(clients, ok);
    assert r + d == clients;
    assert r * d == {};
    assert clients - d == r;
  }

  /** The peers a run of deliveries went to. */
  ghost function Recipients(ds: seq<Delivery>): set<Client> {
    set i | 0 <= i < |ds| :: ds[i].to
  }

  lemma ReachedAdd(done: set<Client>, c: Client, ok: Client -> bool)
    requires c !in done
    ensures ok(c) ==> Reached(done + {c}, ok) == Reached(done, ok) + {c} && c !in Reached(done, ok)
    ensures !ok(c) ==> Reached(done + {c}, ok) == Reached(done, ok)
    ensures ok(c) ==> Dropped(done + {c}, ok) == Dropped(done, ok)
    ensures !ok(c) ==> Dropped(done + {c}, ok) == Dropped(done, ok) + {c}
  {
  }

  lemma RecipientsAppend(ds: seq<Delivery>, d: Delivery)
    ensures Recipients(ds + [d]) == Recipients(ds) + {d.to}
  {
    var l := ds + [d];
    forall x | x in Recipients(l) ensures x in Recipients(ds) + {d.to} {
      var i :| 0 <= i < |l| && l[i].to == x;
      if i < |ds| {
        assert ds[i].to == x;
      }
    }
    forall x | x in Recipients(ds) + {d.to} ensures x in Recipients(l) {
      if x == d.to {
        assert l[|ds|].to == x;
      } else {
        var i :| 0 <= i < |ds| && ds[i].to == x;
        assert l[i].to == x;
      }
    }
  }

  /** What a partial sweep over the peers in `done` has produced: the peers
      it dropped and the deliveries it made. */
  ghost predicate Swept(done: set<Client>, ok: Client -> bool, event: Event,
                        failed: set<Client>, sent: seq<Delivery>) {
    && failed == Dropped(done, ok)
    && Recipients(sent) == Reached(done, ok)
    && |sent| == |Reached(done, ok)|
    && (forall i :: 0 <= i < |sent| ==> sent[i].event == event)
  }

  /** Trying one more peer whose send succeeds extends a partial sweep by
      one delivery to that peer. */
  lemma SweptKept(done: set<Client>, c: Client, ok: Client -> bool, event: Event,
                  failed: set<Client>, sent: seq<Delivery>)
    requires c !in done && ok(c) && Swept(done, ok, event, failed, sent)
    ensures Swept(done + {c}, ok, event, failed, sent + [Delivery(c, event)])
  {
    ReachedAdd(done, c, ok);
    RecipientsAppend(sent, Delivery(c, event));
  }

  /** Trying one more peer whose send fails extends a partial sweep by one
      failed peer. */
  lemma SweptFailed(done: set<Client>, c: Client, ok: Client -> bool, event: Event,
                    failed: set<Client>, sent: seq<Delivery>)
    requires c !in done && !ok(c) && Swept(done, ok, event, failed, sent)
    ensures Swept(done + {c}, ok, event, failed + {c}, sent)
  {
    ReachedAdd(done, c, ok);
  }

  class Hub {
    /** `websocket_clients`. */
    var clients: set<Client>
    /** Every event that reached a peer, in order. */
    var outbox: seq<Delivery>

    constructor ()
      ensures clients == {} && outbox == []
    {
      clients, outbox := {}, [];
    }

    /** `_send_response`: the event reaches the peer when the send succeeds;
        a failure is only logged, and the peer stays registered. */
    method SendResponse(c: Client, event: Event, ok: bool)
      modifies this
      ensures clients == old(clients)
      ensures outbox == old(outbox) + (if ok then [Delivery(c, event)] else [])
    {
      if ok {
        outbox := outbox + [Delivery(c, event)];
      }
    }

    /** A new connection: register the peer, then try the welcome message. */
    method Connect(c: Client, welcomeOk: bool)
      modifies this
      ensures clients == old(clients) + {c}
      ensures outbox == old(outbox) + (if welcomeOk then [Delivery(c, Connected(WelcomeMessage, ServiceVersion))] else [])
    {
      clients := clients + {c};
      SendResponse(c, Connected(WelcomeMessage, ServiceVersion), welcomeOk);
    }

    /** The connection ended: unregister the peer, if still registered. */
    method Disconnect(c: Client)
      modifies this
      ensures clients == old(clients) - {c}
      ensures outbox == old(outbox)
    {
      clients := clients - {c};
    }

    /** `_broadcast_message`: nothing with no peers; otherwise every
        registered peer is tried once, in some order, the peers whose send
        failed are collected, and only after the sweep are they dropped. */
    method Broadcast(event: Event, ok: Client -> bool)
      modifies this
      ensures old(clients) == {} ==> outbox == old(outbox)
      ensures clients == old(clients) - Dropped(old(clients), ok)
      ensures clients == Reached(old(clients), ok)
      ensures |outbox| == |old(outbox)| + |Reached(old(clients), ok)|
      ensures outbox[..|old(outbox)|] == old(outbox)
      ensures Recipients(outbox[|old(outbox)|..]) == Reached(old(clients), ok)
      ensures forall i :: |old(outbox)| <= i < |outbox| ==> outbox[i].event == event
    {
      ReachedAndDropped(clients, ok);
      if clients == {} {
        return;
      }
      var failed := Sweep(event, ok);
      ReachedAndDropped(clients, ok);
      clients := clients - failed;
    }

    /** The sweep of `_broadcast_message`: every registered peer is tried
        once, in some order; the registered set is left alone and the peers
        whose send failed are returned. */
    method Sweep(event: Event, ok: Client -> bool) returns (failed: set<Client>)
      modifies this
      ensures clients == old(clients)
      ensures failed == Dropped(clients, ok)
      ensures |outbox| == |old(outbox)| + |Reached(clients, ok)|
      ensures outbox[..|old(outbox)|] == old(outbox)
      ensures Recipients(outbox[|old(outbox)|..]) == Reached(clients, ok)
      ensures forall i :: |old(outbox)| <= i < |outbox| ==> outbox[i].event == event
    {
      ghost var sent: seq<Delivery> := [];
      var remaining := clients;
      failed := {};
      while remaining != {}
        invariant clients == old(clients) && remaining <= clients
        invariant outbox == old(outbox) + sent
        invariant Swept(clients - remaining, ok, event, failed, sent)
        decreases remaining
      {
        var c :| c in remaining;
        ghost var done := clients - remaining;
        if ok(c) {
          SweptKept(done, c, ok, event, failed, sent);
          sent := sent + [Delivery(c, event)];
        } else {
          SweptFailed(done, c, ok, event, failed, sent);
          failed := failed + {c};
        }
        SendResponse(c, event, ok(c));
        remaining := remaining - {c};
        assert clients - remaining == done + {c};
      }
      assert outbox[|old(outbox)|..] == sent;
      assert clients - remaining == clients;
    }
  }
}
