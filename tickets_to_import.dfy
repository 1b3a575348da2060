/**
 * `Freshdesk::TicketsToImport`: the stream of tickets handed to the importer.
 * Tickets come in the order `each_ticket` lists them; a ticket the filter
 * rejects is skipped before anything else happens; the others get their
 * conversations attached (when configured) and are emitted.
 */
module TicketsToImport {
  import opened Wrappers
  import TicketConverter
  import Seqs

  type FdTicket = TicketConverter.FdTicket
  type Conversation = TicketConverter.Conversation

  /** `should_import?`: with no callable filter (None) every ticket is imported. */
  function ShouldImport(filter: Option<FdTicket -> bool>, t: FdTicket): (r: bool)
    ensures filter.None? ==> r
    ensures filter.Some? ==> r == filter.value(t)
  {
    filter.None? || filter.value(t)
  }

  /** `ticket['conversations'] = client.all_conversations(ticket['id'])` when conversations are included. */
  function Enrich(t: FdTicket, includeConversations: bool, fetch: int -> seq<Conversation>): FdTicket {
    if includeConversations then t.(conversations := Some(fetch(t.id))) else t
  }

  /** The tickets `each` hands to its block, in order. */
  function Emitted(tickets: seq<FdTicket>, filter: Option<FdTicket -> bool>, includeConversations: bool,
                   fetch: int -> seq<Conversation>): seq<FdTicket>
    decreases |tickets|
  {
    if tickets == [] then []
    else (if ShouldImport(filter, tickets[0]) then [Enrich(tickets[0], includeConversations, fetch)] else [])
         + Emitted(tickets[1..], filter, includeConversations, fetch)
  }

  /** The ticket ids whose conversations `each` fetches, in order. */
  function Fetched(tickets: seq<FdTicket>, filter: Option<FdTicket -> bool>, includeConversations: bool): seq<int>
    decreases |tickets|
  {
    if tickets == [] then []
    else (if includeConversations && ShouldImport(filter, tickets[0]) then [tickets[0].id] else [])
         + Fetched(tickets[1..], filter, includeConversations)
  }

  /** One ticket of the listing: what it adds to the emitted and fetched streams. */
  lemma EachUnfold(tickets: seq<FdTicket>, filter: Option<FdTicket -> bool>, includeConversations: bool,
                   fetch: int -> seq<Conversation>)
    requires tickets != []
    ensures var t := tickets[0];
      && Emitted(tickets, filter, includeConversations, fetch)
         == (if ShouldImport(filter, t) then [Enrich(t, includeConversations, fetch)] else [])
            + Emitted(tickets[1..], filter, includeConversations, fetch)
      && Fetched(tickets, filter, includeConversations)
         == (if includeConversations && ShouldImport(filter, t) then [t.id] else [])
            + Fetched(tickets[1..], filter, includeConversations)
  {
  }

  /** `each`: the emitted tickets and, for the record, the ids whose conversations were fetched. */
  method Each(tickets: seq<FdTicket>, filter: Option<FdTicket -> bool>, includeConversations: bool,
              fetch: int -> seq<Conversation>)
    returns (emitted: seq<FdTicket>, fetched: seq<int>)
    ensures emitted == Emitted(tickets, filter, includeConversations, fetch)
    ensures fetched == Fetched(tickets, filter, includeConversations)
  {
    emitted, fetched := [], [];
    var i := 0;
    assert tickets[0..] == tickets;
    while i < |tickets|
      invariant 0 <= i <= |tickets|
      invariant emitted + Emitted(tickets[i..], filter, includeConversations, fetch)
             == Emitted(tickets, filter, includeConversations, fetch)
      invariant fetched + Fetched(tickets[i..], filter, includeConversations)
             == Fetched(tickets, filter, includeConversations)
      decreases |tickets| - i
    {
      ghost var tail := tickets[i..];
      assert tail[0] == tickets[i] && tail[1..] == tickets[i + 1..];
      EachUnfold(tail, filter, includeConversations, fetch);
      ghost var restE := Emitted(tickets[i + 1..], filter, includeConversations, fetch);
      ghost var restF := Fetched(tickets[i + 1..], filter, includeConversations);
      var ticket := tickets[i];
      i := i + 1;
      if !ShouldImport(filter, ticket) {
        assert [] + restE == restE && [] + restF == restF;
        continue;
      }
      if includeConversations {
        Seqs.AppendAssoc(fetched, [ticket.id], restF);
        fetched := fetched + [ticket.id];
        ticket := ticket.(conversations := Some(fetch(ticket.id)));
      } else {
        assert [] + restF == restF;
      }
      Seqs.AppendAssoc(emitted, [ticket], restE);
      emitted := emitted + [ticket];
    }
    assert tickets[i..] == [];
  }

  /** Streaming is compositional: the tickets of two listings are emitted one listing after the other. */
  lemma {:induction false} EmittedAppend(a: seq<FdTicket>, b: seq<FdTicket>, filter: Option<FdTicket -> bool>,
                                         includeConversations: bool, fetch: int -> seq<Conversation>)
    ensures Emitted(a + b, filter, includeConversations, fetch)
         == Emitted(a, filter, includeConversations, fetch) + Emitted(b, filter, includeConversations, fetch)
    decreases |a|
  {
    if a == [] {
      assert a + b == b;
    } else {
      assert (a + b)[0] == a[0] && (a + b)[1..] == a[1..] + b;
      EmittedAppend(a[1..], b, filter, includeConversations, fetch);
    }
  }

  /** The tickets the filter accepts, in listing order. */
  function Accepted(tickets: seq<FdTicket>, filter: Option<FdTicket -> bool>): seq<FdTicket>
    decreases |tickets|
  {
    if tickets == [] then []
    else (if ShouldImport(filter, tickets[0]) then [tickets[0]] else []) + Accepted(tickets[1..], filter)
  }

  /** The accepted tickets are tickets of the listing that the filter accepts; a rejected ticket is not among them. */
  lemma {:induction false} AcceptedSpec(tickets: seq<FdTicket>, filter: Option<FdTicket -> bool>)
    ensures forall t | t in Accepted(tickets, filter) :: t in tickets && ShouldImport(filter, t)
    ensures forall t | t in tickets && ShouldImport(filter, t) :: t in Accepted(tickets, filter)
    decreases |tickets|
  {
    if tickets != [] {
      AcceptedSpec(tickets[1..], filter);
      forall t | t in tickets && ShouldImport(filter, t) ensures t in Accepted(tickets, filter) {
        if t != tickets[0] { assert t in tickets[1..]; }
      }
    }
  }

  /**
   * Filtering happens before enrichment: the emitted stream is the accepted
   * tickets, in order, each with its conversations attached when configured.
   */
  lemma {:induction false} EmittedSpec(tickets: seq<FdTicket>, filter: Option<FdTicket -> bool>,
                                       includeConversations: bool, fetch: int -> seq<Conversation>)
    ensures var acc := Accepted(tickets, filter);
      Emitted(tickets, filter, includeConversations, fetch)
        == seq(|acc|, k requires 0 <= k < |acc| => Enrich(acc[k], includeConversations, fetch))
    decreases |tickets|
  {
    if tickets != [] {
      EmittedSpec(tickets[1..], filter, includeConversations, fetch);
      var acc := Accepted(tickets, filter);
      var acc' := Accepted(tickets[1..], filter);
      var e := Emitted(tickets, filter, includeConversations, fetch);
      var e' := Emitted(tickets[1..], filter, includeConversations, fetch);
      var d := if ShouldImport(filter, tickets[0]) then 1 else 0;
      assert |acc| == d + |acc'| && |e| == d + |e'|;
      forall k | 0 <= k < |acc| ensures e[k] == Enrich(acc[k], includeConversations, fetch) {
        if k >= d {
          assert acc[k] == acc'[k - d] && e[k] == e'[k - d];
        }
      }
    }
  }

  /** Conversations are attached to every emitted ticket when included, and only then. */
  lemma ConversationsAttachedWhenIncluded(tickets: seq<FdTicket>, filter: Option<FdTicket -> bool>,
                                          includeConversations: bool, fetch: int -> seq<Conversation>)
    ensures var e := Emitted(tickets, filter, includeConversations, fetch);
      includeConversations ==> forall k | 0 <= k < |e| :: e[k].conversations == Some(fetch(e[k].id))
    ensures !includeConversations ==> Emitted(tickets, filter, includeConversations, fetch) == Accepted(tickets, filter)
  {
    EmittedSpec(tickets, filter, includeConversations, fetch);
  }

  /** A ticket the filter rejects is never emitted and never causes a conversations fetch. */
  lemma RejectedSkipped(tickets: seq<FdTicket>, filter: Option<FdTicket -> bool>, includeConversations: bool,
                        fetch: int -> seq<Conversation>, t: FdTicket)
    requires !ShouldImport(filter, t)
    ensures Emitted(tickets + [t], filter, includeConversations, fetch) == Emitted(tickets, filter, includeConversations, fetch)
    ensures Fetched(tickets + [t], filter, includeConversations) == Fetched(tickets, filter, includeConversations)
  {
    EmittedAppend(tickets, [t], filter, includeConversations, fetch);
    FetchedAppend(tickets, [t], filter, includeConversations);
    assert [t][1..] == [];
  }

  lemma {:induction false} FetchedAppend(a: seq<FdTicket>, b: seq<FdTicket>, filter: Option<FdTicket -> bool>,
                                         includeConversations: bool)
    ensures Fetched(a + b, filter, includeConversations) == Fetched(a, filter, includeConversations) + Fetched(b, filter, includeConversations)
    decreases |a|
  {
    if a == [] {
      assert a + b == b;
    } else {
      assert (a + b)[0] == a[0] && (a + b)[1..] == a[1..] + b;
      FetchedAppend(a[1..], b, filter, includeConversations);
    }
  }

  /** Conversations are fetched for exactly the emitted tickets, in order, and only when included. */
  lemma {:induction false} FetchedAreEmitted(tickets: seq<FdTicket>, filter: Option<FdTicket -> bool>,
                                             includeConversations: bool, fetch: int -> seq<Conversation>)
    ensures !includeConversations ==> Fetched(tickets, filter, includeConversations) == []
    ensures var e := Emitted(tickets, filter, includeConversations, fetch);
      includeConversations ==> Fetched(tickets, filter, includeConversations) == seq(|e|, k requires 0 <= k < |e| => e[k].id)
    decreases |tickets|
  {
    if tickets != [] {
      FetchedAreEmitted(tickets[1..], filter, includeConversations, fetch);
    }
  }

  /** Without a callable filter and without conversations the stream is the listing itself. */
  lemma {:induction false} NoFilterEmitsAll(tickets: seq<FdTicket>, fetch: int -> seq<Conversation>)
    ensures Emitted(tickets, None, false, fetch) == tickets
    decreases |tickets|
  {
    if tickets != [] {
      NoFilterEmitsAll(tickets[1..], fetch);
    }
  }
}
