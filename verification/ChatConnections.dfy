/** The state of a connection, told from the events on it alone. */
module ChatConnections {
  import opened ChatProtocol
  import opened ChatSessions

  // ----- runs with the states they pass through -----

  ghost predicate StepAt(events: seq<Event>, states: seq<State>, n: nat)
    requires |states| == |events| + 1 && n < |events|
  {
    Enabled(states[n], events[n]) && states[n + 1] == After(states[n], events[n])
  }

  /** A run of a server that began with nobody logged in. */
  ghost predicate Passes(events: seq<Event>, states: seq<State>) {
    |states| == |events| + 1 && AllIdle(states[0]) && forall n: nat :: n < |events| ==> StepAt(events, states, n)
  }

  lemma {:induction false} PassesGood(events: seq<Event>, states: seq<State>, n: nat)
    requires Passes(events, states) && n <= |events|
    ensures Good(states[n])
    decreases n
  {
    if n == 0 {
      assert forall i: nat :: i < |states[0].rows| ==> RowOk(states[0], i);
    } else {
      PassesGood(events, states, n - 1);
      assert StepAt(events, states, n - 1);
      EventGood(states[n - 1], events[n - 1]);
    }
  }

  /** Every legal run passes through states ending in its final one. */
  lemma {:induction false} RunPasses(s: State, events: seq<Event>) returns (states: seq<State>)
    requires AllIdle(s) && Legal(s, events)
    ensures Passes(events, states) && states[0] == s && states[|events|] == Final(s, events)
    decreases |events|
  {
    if events == [] {
      states := [s];
    } else {
      var m := |events| - 1;
      var before := RunPasses(s, events[..m]);
      states := before + [Final(s, events)];
      forall n: nat | n < |events| ensures StepAt(events, states, n) {
        if n < m {
          assert StepAt(events[..m], before, n);
        }
      }
    }
  }

  // ----- what has happened on a connection -----

  /** The event ends the connection: it hangs up, chooses to leave, or the server shuts down. */
  predicate Closes(e: Event, fd: int) {
    e == HangUp(fd) || e == Choice(fd, 3) || e == Shutdown
  }

  /** Accepted by event `a`, and not closed since, before event `n`. */
  ghost predicate OpenSince(events: seq<Event>, n: nat, fd: int, a: nat) {
    a < n <= |events| && events[a] == Accept(fd) && forall k :: a < k < n ==> !Closes(events[k], fd)
  }

  /** Event `k` is a login or registration request on the connection, and is answered with success. */
  ghost predicate Admitted(events: seq<Event>, states: seq<State>, k: nat, fd: int) {
    && k < |events| && k < |states| && events[k].Request? && events[k].fd == fd
    && Enabled(states[k], events[k]) && Sends(states[k], events[k]) == [Sent(fd, Reply(SUCCESS))]
  }

  /** Event `k` is a choice on the connection other than to leave. */
  ghost predicate Chosen(events: seq<Event>, k: nat, fd: int) {
    k < |events| && events[k].Choice? && events[k].fd == fd && events[k].option != 3
  }

  /** Event `k` is the last request on the connection, successful or not. */
  ghost predicate LastRequest(events: seq<Event>, n: nat, fd: int, a: nat, k: nat) {
    && a < k < n <= |events| && RequestOn(events[k], fd)
    && forall m :: k < m < n ==> !RequestOn(events[m], fd)
  }

  predicate RequestOn(e: Event, fd: int) {
    e.Request? && e.fd == fd
  }

  ghost predicate AdmittedSince(events: seq<Event>, states: seq<State>, n: nat, fd: int, a: nat) {
    exists k: nat :: a < k < n && Admitted(events, states, k, fd)
  }

  ghost predicate ChosenSince(events: seq<Event>, n: nat, fd: int, a: nat) {
    exists k: nat :: a < k < n && Chosen(events, k, fd)
  }

  /** The state its own events give a connection accepted by event `a`. */
  ghost function StateSince(events: seq<Event>, states: seq<State>, n: nat, fd: int, a: nat): ConState {
    if ChosenSince(events, n, fd, a) then ONLINE
    else if AdmittedSince(events, states, n, fd, a) then AUTHENTICATED
    else REQUEST
  }

  /** The connection table holds the descriptor exactly while its connection is open, in that state, and under the
      name of its last request, which is that it was admitted with; nobody chooses before being admitted. */
  ghost predicate Follows(events: seq<Event>, states: seq<State>, n: nat, fd: int)
    requires n < |states|
  {
    && (fd in states[n].cons <==> exists a: nat :: OpenSince(events, n, fd, a))
    && forall a: nat :: OpenSince(events, n, fd, a) ==> FollowsFrom(events, states, n, fd, a)
  }

  ghost predicate FollowsFrom(events: seq<Event>, states: seq<State>, n: nat, fd: int, a: nat)
    requires n < |states|
  {
    && fd in states[n].cons
    && states[n].cons[fd].state == StateSince(events, states, n, fd, a)
    && (ChosenSince(events, n, fd, a) ==> AdmittedSince(events, states, n, fd, a))
    && NamedAfter(events, states, n, fd, a, states[n].cons[fd].name)
  }

  ghost predicate NamedAfter(events: seq<Event>, states: seq<State>, n: nat, fd: int, a: nat, name: string) {
    && (forall k: nat :: LastRequest(events, n, fd, a, k) ==> name == events[k].name)
    && forall k: nat :: a < k < n && Admitted(events, states, k, fd) ==> name == events[k].name
  }

  lemma OpenBefore(events: seq<Event>, n: nat, fd: int, a: nat)
    requires n < |events|
    ensures OpenSince(events, n + 1, fd, a) <==>
            (a == n && events[n] == Accept(fd)) || (OpenSince(events, n, fd, a) && !Closes(events[n], fd))
  {
  }

  lemma SinceNext(events: seq<Event>, states: seq<State>, n: nat, fd: int, a: nat)
    requires a < n < |events|
    ensures AdmittedSince(events, states, n + 1, fd, a) <==>
            AdmittedSince(events, states, n, fd, a) || Admitted(events, states, n, fd)
    ensures ChosenSince(events, n + 1, fd, a) <==> ChosenSince(events, n, fd, a) || Chosen(events, n, fd)
  {
  }

  /** What an event that does not close the connection does to it. */
  lemma ConAfter(s: State, e: Event, fd: int)
    requires Good(s) && Enabled(s, e) && fd in s.cons && !Closes(e, fd)
    ensures fd in After(s, e).cons
    ensures var con, con' := s.cons[fd], After(s, e).cons[fd];
            && con'.name == (if RequestOn(e, fd) then e.name else con.name)
            && con'.state == (if RequestOn(e, fd) && Sends(s, e) == [Sent(fd, Reply(SUCCESS))] then AUTHENTICATED
                              else if e.Choice? && e.fd == fd then ONLINE else con.state)
    ensures RequestOn(e, fd) ==> s.cons[fd].state == REQUEST
    ensures e.Choice? && e.fd == fd ==> s.cons[fd].state == AUTHENTICATED
  {
  }

  /** One event on an open connection that does not close it. */
  lemma StaysOpen(events: seq<Event>, states: seq<State>, n: nat, fd: int, a: nat)
    requires Passes(events, states) && n < |events| && OpenSince(events, n, fd, a) && !Closes(events[n], fd)
    requires FollowsFrom(events, states, n, fd, a)
    ensures FollowsFrom(events, states, n + 1, fd, a)
  {
    PassesGood(events, states, n);
    assert StepAt(events, states, n);
    ConAfter(states[n], events[n], fd);
    SinceNext(events, states, n, fd, a);
    NameKept(events, states, n, fd, a, states[n].cons[fd].name, states[n + 1].cons[fd].name);
  }

  lemma NameKept(events: seq<Event>, states: seq<State>, n: nat, fd: int, a: nat, name: string, name': string)
    requires a < n < |events| && NamedAfter(events, states, n, fd, a, name)
    requires name' == if RequestOn(events[n], fd) then events[n].name else name
    requires RequestOn(events[n], fd) ==> !AdmittedSince(events, states, n, fd, a)
    ensures NamedAfter(events, states, n + 1, fd, a, name')
  {
    var m := n + 1;
    forall k: nat | LastRequest(events, m, fd, a, k) ensures name' == events[k].name {
      assert k < n ==> LastRequest(events, n, fd, a, k);
    }
  }

  lemma FollowsNext(events: seq<Event>, states: seq<State>, n: nat, fd: int)
    requires Passes(events, states) && n < |events| && Follows(events, states, n, fd)
    ensures Follows(events, states, n + 1, fd)
  {
    PassesGood(events, states, n);
    assert StepAt(events, states, n);
    var m := n + 1;
    forall a: nat | OpenSince(events, m, fd, a) ensures FollowsFrom(events, states, m, fd, a) {
      OpenBefore(events, n, fd, a);
      if a < n {
        StaysOpen(events, states, n, fd, a);
      }
    }
    if fd in states[n + 1].cons {
      if events[n] == Accept(fd) {
        OpenBefore(events, n, fd, n);
      } else {
        var a: nat :| OpenSince(events, n, fd, a);
        OpenBefore(events, n, fd, a);
      }
    }
  }

  /** In every reachable state a descriptor is in the connection table exactly if it was accepted and has neither hung
      up, chosen to leave nor been shut down since. It waits for a request until one succeeds, then for an option
      until one is chosen, and is online from then on. */
  lemma {:induction false} ConnectionsFollowEvents(events: seq<Event>, states: seq<State>, n: nat, fd: int)
    requires Passes(events, states) && n <= |events|
    ensures Follows(events, states, n, fd)
    decreases n
  {
    if n > 0 {
      ConnectionsFollowEvents(events, states, n - 1, fd);
      FollowsNext(events, states, n - 1, fd);
    }
  }
}
