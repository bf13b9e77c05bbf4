// catch_exception() of integration/tools.py: calls to an e-commerce API are repeated on
// client and server errors, each kind with its own counter.
module RetryWrapper {

  const CLIENT_LIMIT := 8
  const SERVER_LIMIT := 5

  // How one attempt of the wrapped method ends: it returns, or it raises a connection,
  // conflict or rate error, a throttling error, a server error, or anything else.
  datatype Attempt = Returns | ClientError | Throttled | ServerError | OtherError

  datatype Verdict = Returned | RaisedClient | RaisedServer | RaisedOther | StillTrying

  // The verdict on a trace of attempts, and how many of them were made. Each retry passes
  // on one counter only, so the other one starts again at 1.
  function Catch(trace: seq<Attempt>, client: nat := 1, server: nat := 1): (Verdict, nat) {
    if trace == [] then (StillTrying, 0)
    else
      match trace[0]
      case Returns => (Returned, 1)
      case ClientError =>
        if client <= CLIENT_LIMIT then OneMore(Catch(trace[1..], client + 1, 1)) else (RaisedClient, 1)
      case Throttled => OneMore(Catch(trace[1..], client, 1))
      case ServerError =>
        if server <= SERVER_LIMIT then OneMore(Catch(trace[1..], 1, server + 1)) else (RaisedServer, 1)
      case OtherError => (RaisedOther, 1)
  }

  function OneMore(r: (Verdict, nat)): (Verdict, nat) {
    (r.0, r.1 + 1)
  }

  // ------------------------------------------------------------------ runs of failures

  // Client errors since the last server error, throttling disregarded.
  function ClientRun(trace: seq<Attempt>): nat {
    if trace == [] then 0
    else
      var front := trace[..|trace| - 1];
      match trace[|trace| - 1]
      case ClientError => ClientRun(front) + 1
      case Throttled => ClientRun(front)
      case _ => 0
  }

  // Server errors in a row at the end.
  function ServerRun(trace: seq<Attempt>): nat {
    if trace == [] then 0
    else if trace[|trace| - 1] == ServerError then ServerRun(trace[..|trace| - 1]) + 1
    else 0
  }

  // Attempt n is the last one: it returns, raises something that is not retried, is the
  // ninth client error with no server error in between, or the sixth server error in a row.
  predicate Ends(trace: seq<Attempt>, n: nat)
    requires n < |trace|
  {
    match trace[n]
    case Returns => true
    case ClientError => ClientRun(trace[..n + 1]) == 9
    case Throttled => false
    case ServerError => ServerRun(trace[..n + 1]) == 6
    case OtherError => true
  }

  predicate EndsFirst(trace: seq<Attempt>, n: nat) {
    n < |trace| && Ends(trace, n) && forall m :: 0 <= m < n ==> !Ends(trace, m)
  }

  predicate NeverEnds(trace: seq<Attempt>, upTo: nat)
    requires upTo <= |trace|
  {
    forall m :: 0 <= m < upTo ==> !Ends(trace, m)
  }

  function VerdictOf(attempt: Attempt): Verdict {
    match attempt
    case Returns => Returned
    case ClientError => RaisedClient
    case Throttled => StillTrying
    case ServerError => RaisedServer
    case OtherError => RaisedOther
  }

  // As long as nothing ends the trace, the runs stay below their limits.
  lemma {:induction false} RunsStayLow(trace: seq<Attempt>, i: nat)
    requires i <= |trace| && NeverEnds(trace, i)
    ensures ClientRun(trace[..i]) <= 8 && ServerRun(trace[..i]) <= 5
  {
    if i > 0 {
      RunsStayLow(trace, i - 1);
      assert trace[..i][..i - 1] == trace[..i - 1];
      assert !Ends(trace, i - 1);
    }
  }

  lemma CatchStep(trace: seq<Attempt>, i: nat)
    requires i < |trace| && NeverEnds(trace, i)
    ensures var r := Catch(trace[i..], ClientRun(trace[..i]) + 1, ServerRun(trace[..i]) + 1);
      r == if Ends(trace, i) then (VerdictOf(trace[i]), 1)
           else OneMore(Catch(trace[i + 1..], ClientRun(trace[..i + 1]) + 1, ServerRun(trace[..i + 1]) + 1))
  {
    RunsStayLow(trace, i);
    hide NeverEnds;
    assert trace[..i + 1][..i] == trace[..i];
    assert trace[i..][0] == trace[i] && trace[i..][1..] == trace[i + 1..];
  }

  lemma {:induction false} CatchFollows(trace: seq<Attempt>, i: nat)
    requires i <= |trace| && NeverEnds(trace, i)
    ensures var r := Catch(trace[i..], ClientRun(trace[..i]) + 1, ServerRun(trace[..i]) + 1);
      && (NeverEnds(trace, |trace|) ==> r == (StillTrying, |trace| - i))
      && forall n: nat :: EndsFirst(trace, n) ==> n >= i && r == (VerdictOf(trace[n]), n + 1 - i)
    decreases |trace| - i
  {
    hide Ends, ClientRun, ServerRun;
    if i < |trace| {
      CatchStep(trace, i);
      if !Ends(trace, i) {
        CatchFollows(trace, i + 1);
      } else {
        forall n: nat | EndsFirst(trace, n) ensures n == i {
        }
      }
    }
  }

  lemma CatchFromStart(trace: seq<Attempt>)
    ensures NeverEnds(trace, |trace|) ==> Catch(trace) == (StillTrying, |trace|)
    ensures forall n: nat :: EndsFirst(trace, n) ==> Catch(trace) == (VerdictOf(trace[n]), n + 1)
  {
    hide ClientRun, ServerRun, Catch, Ends, VerdictOf, NeverEnds, EndsFirst;
    NothingRan(trace);
    CatchFollows(trace, 0);
  }

  lemma NothingRan(trace: seq<Attempt>)
    ensures NeverEnds(trace, 0) && trace[0..] == trace
    ensures ClientRun(trace[..0]) == 0 && ServerRun(trace[..0]) == 0
  {
  }

  lemma SomeEndIsFirst(trace: seq<Attempt>) returns (n: nat)
    requires !NeverEnds(trace, |trace|)
    ensures EndsFirst(trace, n) && VerdictOf(trace[n]) != StillTrying
  {
    var m: nat :| m < |trace| && Ends(trace, m);
    n := FirstEnd(trace, m);
    assert trace[n] != Throttled;
  }

  lemma OneFirstEnd(trace: seq<Attempt>, m: nat, n: nat)
    requires EndsFirst(trace, m) && EndsFirst(trace, n)
    ensures m == n
  {
    hide Ends;
  }

  // The wrapper stops at the first attempt that ends the trace, with that attempt's own
  // outcome, and keeps trying if there is none.
  lemma CatchIsExact(trace: seq<Attempt>, n: nat, verdict: Verdict)
    ensures verdict != StillTrying ==>
      (Catch(trace) == (verdict, n + 1) <==> EndsFirst(trace, n) && verdict == VerdictOf(trace[n]))
    ensures Catch(trace).0 == StillTrying <==> NeverEnds(trace, |trace|)
  {
    CatchFromStart(trace);
    if NeverEnds(trace, |trace|) {
      assert !EndsFirst(trace, n);
    } else {
      var k := SomeEndIsFirst(trace);
      hide Ends, Catch, NeverEnds, VerdictOf;
      if EndsFirst(trace, n) { OneFirstEnd(trace, k, n); }
    }
  }

  lemma {:induction false} FirstEnd(trace: seq<Attempt>, m: nat) returns (n: nat)
    requires m < |trace| && Ends(trace, m)
    ensures EndsFirst(trace, n)
    decreases m
  {
    if k: nat :| k < m && Ends(trace, k) {
      n := FirstEnd(trace, k);
    } else {
      n := m;
    }
  }

  // ------------------------------------------------------------------ no bound on attempts

  function Alternating(n: nat): (trace: seq<Attempt>)
    ensures |trace| == n
  {
    seq(n, i => if i % 2 == 0 then ClientError else ServerError)
  }

  lemma {:induction false} AlternatingRuns(n: nat, i: nat)
    requires i <= n
    ensures ClientRun(Alternating(n)[..i]) <= 1 && ServerRun(Alternating(n)[..i]) <= 1
    ensures i > 0 && i % 2 == 1 ==> ServerRun(Alternating(n)[..i]) == 0
    ensures i % 2 == 0 ==> ClientRun(Alternating(n)[..i]) == 0
  {
    if i > 0 {
      AlternatingRuns(n, i - 1);
      assert Alternating(n)[..i][..i - 1] == Alternating(n)[..i - 1];
    }
  }

  // The limits bound runs of one kind of failure, not the number of calls: failures that
  // alternate are repeated for ever.
  lemma AlternatingNeverGivesUp(n: nat)
    ensures Catch(Alternating(n)) == (StillTrying, n)
  {
    var trace := Alternating(n);
    forall m | 0 <= m < n ensures !Ends(trace, m) {
      AlternatingRuns(n, m + 1);
    }
    CatchFollows(trace, 0);
    assert trace[0..] == trace && trace[..0] == [];
  }
}
