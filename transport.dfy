/**
 * The transport as the client sees it: an opener that sends GET requests with a timeout,
 * and the retry loop of `get_response_raw` walking the fixed timeout schedule.
 *
 * The network is a function from the index of a request (how many requests the opener has
 * sent before it) and the request itself to its outcome; a server that answers differently
 * once a login was requested is a network whose outcome depends on that history.
 */
module Transport {
  import opened Wrappers
  import opened Errors
  import opened Classifier

  /** One GET request as the opener sends it. */
  datatype Request = Request(url: string, timeout: nat)

  /**
   * What one request yields: `socket.timeout`, a response, a URLError/HTTPError, or any other
   * exception `open` raises (such as `ConnectionResetError` or `http.client.InvalidURL`).
   */
  datatype Outcome =
    | TimedOut
    | Answered(reply: Reply)
    | Refused(error: UrlError)
    | Raised(name: string)

  /** The `n`-th request the opener sends (counting from 0) gets the outcome `net(n, request)`. */
  type Network = (nat, Request) -> Outcome

  /** The per-attempt timeouts, in seconds. */
  const Schedule: seq<nat> := [30, 30, 30, 300]

  /** A status-200 answer or an exception other than a timeout ends the retry loop. */
  predicate Decisive(o: Outcome)
  {
    o.Refused? || o.Raised? || (o.Answered? && o.reply.code == 200)
  }

  /** What a decisive outcome makes the loop return or raise. */
  function DecisiveResult(o: Outcome): Result<Reply, Failure>
    requires Decisive(o)
  {
    match o
    case Refused(e) => Failure(RawUrlError(e))
    case Raised(x) => Failure(RawException(x))
    case Answered(reply) => Success(reply)
  }

  /** What the retry loop lets escape: a timeout, a URLError or another transport exception. */
  predicate EscapesRaw(e: Failure)
  {
    e == RawTimeout || e.RawUrlError? || e.RawException?
  }

  /** The outcome of a retry loop, with the requests it sent, in order. */
  datatype Fetched = Fetched(result: Result<Reply, Failure>, requests: seq<Request>)

  /** The requests attempts `i..j-1` of the schedule send for `url`. */
  function Scheduled(url: string, i: nat, j: nat): (rs: seq<Request>)
    requires i <= j <= |Schedule|
  {
    seq(j - i, k requires 0 <= k < j - i => Request(url, Schedule[i + k]))
  }

  lemma ScheduledCons(url: string, i: nat, j: nat)
    requires i < j <= |Schedule|
    ensures [Request(url, Schedule[i])] + Scheduled(url, i + 1, j) == Scheduled(url, i, j)
  {
  }

  /** A scheduled run of requests from attempt `i + 1` on extends to one from attempt `i`. */
  lemma ScheduledStep(url: string, i: nat, rest: seq<Request>)
    requires i + 1 + |rest| <= |Schedule|
    requires rest == Scheduled(url, i + 1, i + 1 + |rest|)
    ensures [Request(url, Schedule[i])] + rest == Scheduled(url, i, i + |[Request(url, Schedule[i])] + rest|)
  {
    ScheduledCons(url, i, i + 1 + |rest|);
  }

  /** The outcome attempt `i` of the schedule meets when `n` requests were sent before the loop. */
  function AttemptOutcome(net: Network, n: nat, url: string, i: nat): Outcome
    requires i < |Schedule|
  {
    net(n + i, Request(url, Schedule[i]))
  }

  /**
   * Attempts `i..` of the loop, `last` being the latest non-200 answer so far. A timeout moves
   * on, a non-200 answer is kept and the loop moves on, a 200 answer is returned, and a
   * URLError or another transport exception escapes at once. Once the schedule is exhausted the latest answer is returned,
   * or the timeout escapes when there never was one.
   */
  function Attempts(net: Network, n: nat, url: string, i: nat, last: Option<Reply>): Fetched
    requires i <= |Schedule|
    decreases |Schedule| - i
  {
    if i == |Schedule| then
      Fetched(if last.Some? then Success(last.value) else Failure(RawTimeout), [])
    else
      var req := Request(url, Schedule[i]);
      match AttemptOutcome(net, n, url, i)
      case TimedOut =>
        var rest := Attempts(net, n, url, i + 1, last);
        Fetched(rest.result, [req] + rest.requests)
      case Refused(e) => Fetched(Failure(RawUrlError(e)), [req])
      case Raised(x) => Fetched(Failure(RawException(x)), [req])
      case Answered(reply) =>
        if reply.code == 200 then Fetched(Success(reply), [req])
        else
          var rest := Attempts(net, n, url, i + 1, Some(reply));
          Fetched(rest.result, [req] + rest.requests)
  }

  /**
   * Attempts `i..` send at least one request unless the schedule is exhausted and never more
   * than the schedule has left; what escapes is a timeout, a URLError or another transport
   * exception.
   */
  lemma {:induction false} AttemptsBounds(net: Network, n: nat, url: string, i: nat, last: Option<Reply>)
    requires i <= |Schedule|
    ensures var f := Attempts(net, n, url, i, last);
            && (i < |Schedule| ==> 1 <= |f.requests|)
            && |f.requests| + i <= |Schedule|
            && (f.result.Failure? ==> EscapesRaw(f.result.error))
    decreases |Schedule| - i
  {
    if i < |Schedule| {
      match AttemptOutcome(net, n, url, i)
      case TimedOut => AttemptsBounds(net, n, url, i + 1, last);
      case Refused(_) =>
      case Raised(_) =>
      case Answered(reply) => AttemptsBounds(net, n, url, i + 1, Some(reply));
    }
  }

  /** A timeout, or an answer other than 200, moves on to the next timeout of the schedule. */
  lemma AttemptsRetry(net: Network, n: nat, url: string, i: nat, last: Option<Reply>, next: Option<Reply>)
    requires i < |Schedule|
    requires var o := AttemptOutcome(net, n, url, i);
             || (o.TimedOut? && next == last)
             || (o.Answered? && o.reply.code != 200 && next == Some(o.reply))
    ensures Attempts(net, n, url, i, last).result == Attempts(net, n, url, i + 1, next).result
    ensures Attempts(net, n, url, i, last).requests
         == [Request(url, Schedule[i])] + Attempts(net, n, url, i + 1, next).requests
  {
  }

  /** A decisive outcome ends the loop at once with its own result. */
  lemma AttemptsDecisive(net: Network, n: nat, url: string, i: nat, last: Option<Reply>)
    requires i < |Schedule| && Decisive(AttemptOutcome(net, n, url, i))
    ensures Attempts(net, n, url, i, last)
         == Fetched(DecisiveResult(AttemptOutcome(net, n, url, i)), [Request(url, Schedule[i])])
  {
  }

  /** `get_response_raw(url)` when `n` requests were sent before. */
  function Fetch(net: Network, n: nat, url: string): Fetched
  {
    Attempts(net, n, url, 0, None)
  }

  /** The loop makes one to four attempts, and lets only a timeout, a URLError or another transport exception escape. */
  lemma FetchBounds(net: Network, n: nat, url: string)
    ensures var f := Fetch(net, n, url);
            && 1 <= |f.requests| <= |Schedule|
            && (f.result.Failure? ==> EscapesRaw(f.result.error))
  {
    AttemptsBounds(net, n, url, 0, None);
  }

  lemma {:induction false} AttemptsRequests(net: Network, n: nat, url: string, i: nat, last: Option<Reply>)
    requires i <= |Schedule|
    ensures i + |Attempts(net, n, url, i, last).requests| <= |Schedule|
    ensures Attempts(net, n, url, i, last).requests == Scheduled(url, i, i + |Attempts(net, n, url, i, last).requests|)
    decreases |Schedule| - i
  {
    if i < |Schedule| {
      var o := AttemptOutcome(net, n, url, i);
      if Decisive(o) {
        AttemptsDecisive(net, n, url, i, last);
        ScheduledStep(url, i, []);
      } else {
        var next := if o.TimedOut? then last else Some(o.reply);
        AttemptsRequests(net, n, url, i + 1, next);
        RequestsRetry(net, n, url, i, last, next);
      }
    }
  }

  /** A retried attempt puts its own request in front of the scheduled requests of the rest. */
  lemma RequestsRetry(net: Network, n: nat, url: string, i: nat, last: Option<Reply>, next: Option<Reply>)
    requires i < |Schedule|
    requires var o := AttemptOutcome(net, n, url, i);
             || (o.TimedOut? && next == last)
             || (o.Answered? && o.reply.code != 200 && next == Some(o.reply))
    requires var rest := Attempts(net, n, url, i + 1, next).requests;
             i + 1 + |rest| <= |Schedule| && rest == Scheduled(url, i + 1, i + 1 + |rest|)
    ensures i + |Attempts(net, n, url, i, last).requests| <= |Schedule|
    ensures Attempts(net, n, url, i, last).requests == Scheduled(url, i, i + |Attempts(net, n, url, i, last).requests|)
  {
    AttemptsRetry(net, n, url, i, last, next);
    ScheduledStep(url, i, Attempts(net, n, url, i + 1, next).requests);
  }

  /**
   * The loop makes between one and four attempts and the k-th of them is a GET of `url` with
   * the k-th timeout of the schedule.
   */
  lemma FetchRequests(net: Network, n: nat, url: string)
    ensures 1 <= |Fetch(net, n, url).requests| <= |Schedule|
    ensures Fetch(net, n, url).requests == Scheduled(url, 0, |Fetch(net, n, url).requests|)
  {
    AttemptsRequests(net, n, url, 0, None);
  }

  /** The latest answer among `os`, if any. */
  function LastAnswer(os: seq<Outcome>): Option<Reply>
  {
    if os == [] then None
    else if os[|os| - 1].Answered? then Some(os[|os| - 1].reply)
    else LastAnswer(os[..|os| - 1])
  }

  /** The outcomes of attempts `0..j-1`. */
  function OutcomesUpTo(net: Network, n: nat, url: string, j: nat): (os: seq<Outcome>)
    requires j <= |Schedule|
    ensures |os| == j
  {
    seq(j, k requires 0 <= k < j => AttemptOutcome(net, n, url, k))
  }

  lemma LastAnswerStep(os: seq<Outcome>, o: Outcome)
    ensures LastAnswer(os + [o]) == if o.Answered? then Some(o.reply) else LastAnswer(os)
  {
    assert (os + [o])[..|os|] == os;
  }

  /**
   * An attempt that is not decisive hands the latest answer of the attempts made so far on
   * to the next attempt.
   */
  lemma AttemptsCarry(net: Network, n: nat, url: string, i: nat)
    requires i < |Schedule| && !Decisive(AttemptOutcome(net, n, url, i))
    ensures Attempts(net, n, url, i, LastAnswer(OutcomesUpTo(net, n, url, i))).result
         == Attempts(net, n, url, i + 1, LastAnswer(OutcomesUpTo(net, n, url, i + 1))).result
    ensures Attempts(net, n, url, i, LastAnswer(OutcomesUpTo(net, n, url, i))).requests
         == [Request(url, Schedule[i])] + Attempts(net, n, url, i + 1, LastAnswer(OutcomesUpTo(net, n, url, i + 1))).requests
  {
    var before := OutcomesUpTo(net, n, url, i);
    var o := AttemptOutcome(net, n, url, i);
    assert OutcomesUpTo(net, n, url, i + 1) == before + [o];
    LastAnswerStep(before, o);
    AttemptsRetry(net, n, url, i, LastAnswer(before), LastAnswer(before + [o]));
  }

  /**
   * Before any decisive outcome, the loop from attempt `i` on behaves as from the start:
   * what it carries is the latest answer of the attempts already made.
   */
  lemma {:induction false} AttemptsUndecided(net: Network, n: nat, url: string, i: nat, j: nat)
    requires i <= j < |Schedule|
    requires forall k | 0 <= k < j :: !Decisive(AttemptOutcome(net, n, url, k))
    requires Decisive(AttemptOutcome(net, n, url, j))
    ensures Attempts(net, n, url, i, LastAnswer(OutcomesUpTo(net, n, url, i)))
         == Fetched(
              DecisiveResult(AttemptOutcome(net, n, url, j)),
              Scheduled(url, i, j + 1))
    decreases j - i
  {
    if i < j {
      AttemptsCarry(net, n, url, i);
      AttemptsUndecided(net, n, url, i + 1, j);
      ScheduledCons(url, i, j + 1);
      var f := Attempts(net, n, url, i, LastAnswer(OutcomesUpTo(net, n, url, i)));
      assert f == Fetched(f.result, f.requests);
    }
  }

  /**
   * The loop ends at the first decisive attempt `j`: it has sent exactly `j + 1` requests
   * with the scheduled timeouts, and returns that 200 answer or lets that exception escape.
   */
  lemma FetchStopsAtDecisive(net: Network, n: nat, url: string, j: nat)
    requires j < |Schedule|
    requires forall k | 0 <= k < j :: !Decisive(AttemptOutcome(net, n, url, k))
    requires Decisive(AttemptOutcome(net, n, url, j))
    ensures Fetch(net, n, url).requests == Scheduled(url, 0, j + 1)
    ensures AttemptOutcome(net, n, url, j).Refused? ==>
              Fetch(net, n, url).result == Failure(RawUrlError(AttemptOutcome(net, n, url, j).error))
    ensures AttemptOutcome(net, n, url, j).Raised? ==>
              Fetch(net, n, url).result == Failure(RawException(AttemptOutcome(net, n, url, j).name))
    ensures AttemptOutcome(net, n, url, j).Answered? ==>
              Fetch(net, n, url).result == Success(AttemptOutcome(net, n, url, j).reply)
  {
    assert OutcomesUpTo(net, n, url, 0) == [];
    AttemptsUndecided(net, n, url, 0, j);
  }

  /**
   * Timeouts on the first `N - 1` attempts and a 200 answer on the `N`-th: that answer is
   * returned after exactly `N` requests.
   */
  lemma RetryUntilSuccess(net: Network, n: nat, url: string, N: nat, reply: Reply)
    requires 1 <= N <= |Schedule|
    requires forall k | 0 <= k < N - 1 :: AttemptOutcome(net, n, url, k) == TimedOut
    requires AttemptOutcome(net, n, url, N - 1) == Answered(reply) && reply.code == 200
    ensures Fetch(net, n, url) == Fetched(Success(reply), Scheduled(url, 0, N))
  {
    FetchStopsAtDecisive(net, n, url, N - 1);
  }

  lemma {:induction false} AttemptsExhausted(net: Network, n: nat, url: string, i: nat)
    requires i <= |Schedule|
    requires forall k | 0 <= k < |Schedule| :: !Decisive(AttemptOutcome(net, n, url, k))
    ensures (var last := LastAnswer(OutcomesUpTo(net, n, url, |Schedule|));
             Attempts(net, n, url, i, LastAnswer(OutcomesUpTo(net, n, url, i)))
             == Fetched(if last.Some? then Success(last.value) else Failure(RawTimeout), Scheduled(url, i, |Schedule|)))
    decreases |Schedule| - i
  {
    if i < |Schedule| {
      AttemptsCarry(net, n, url, i);
      AttemptsExhausted(net, n, url, i + 1);
      ScheduledCons(url, i, |Schedule|);
      var f := Attempts(net, n, url, i, LastAnswer(OutcomesUpTo(net, n, url, i)));
      assert f == Fetched(f.result, f.requests);
    }
  }

  /**
   * Without a decisive outcome (a 200 answer, a URLError or another transport exception),
   * all four attempts are made and the latest answer is
   * returned; when every attempt timed out, the timeout escapes.
   */
  lemma FetchExhausted(net: Network, n: nat, url: string)
    requires forall k | 0 <= k < |Schedule| :: !Decisive(AttemptOutcome(net, n, url, k))
    ensures Fetch(net, n, url).requests == Scheduled(url, 0, |Schedule|)
    ensures LastAnswer(OutcomesUpTo(net, n, url, |Schedule|)).Some? ==>
              Fetch(net, n, url).result == Success(LastAnswer(OutcomesUpTo(net, n, url, |Schedule|)).value)
    ensures LastAnswer(OutcomesUpTo(net, n, url, |Schedule|)).None? ==>
              Fetch(net, n, url).result == Failure(RawTimeout)
  {
    assert OutcomesUpTo(net, n, url, 0) == [];
    AttemptsExhausted(net, n, url, 0);
  }

  // ---------------------------------------------------------------- the loop as written

  /**
   * The loop exactly as written: the re-raise guard compares the attempt index with the
   * length of the schedule, which an index never reaches, so after four timeouts the
   * function returns a response variable that was never assigned, and a timeout never
   * escapes.
   */
  function AttemptsAsWritten(net: Network, n: nat, url: string, i: nat, last: Option<Reply>): (f: Fetched)
    requires i <= |Schedule|
    ensures f.result.Failure? ==> EscapesRaw(f.result.error) || f.result.error == UnboundResponse
    ensures f.result != Failure(RawTimeout)
    decreases |Schedule| - i
  {
    if i == |Schedule| then
      Fetched(if last.Some? then Success(last.value) else Failure(UnboundResponse), [])
    else
      var req := Request(url, Schedule[i]);
      match AttemptOutcome(net, n, url, i)
      case TimedOut =>
        if i >= |Schedule| then Fetched(Failure(RawTimeout), [req])
        else
          var rest := AttemptsAsWritten(net, n, url, i + 1, last);
          Fetched(rest.result, [req] + rest.requests)
      case Refused(e) => Fetched(Failure(RawUrlError(e)), [req])
      case Raised(x) => Fetched(Failure(RawException(x)), [req])
      case Answered(reply) =>
        if reply.code == 200 then Fetched(Success(reply), [req])
        else
          var rest := AttemptsAsWritten(net, n, url, i + 1, Some(reply));
          Fetched(rest.result, [req] + rest.requests)
  }

  /**
   * The written loop and the corrected one differ only where no response was ever received:
   * the written one then fails with UnboundLocalError instead of the timeout.
   */
  lemma {:induction false} AsWrittenDiffersOnlyWhenUnbound(net: Network, n: nat, url: string, i: nat, last: Option<Reply>)
    requires i <= |Schedule|
    ensures AttemptsAsWritten(net, n, url, i, last).requests == Attempts(net, n, url, i, last).requests
    ensures AttemptsAsWritten(net, n, url, i, last).result == Failure(UnboundResponse)
        <==> Attempts(net, n, url, i, last).result == Failure(RawTimeout)
    ensures Attempts(net, n, url, i, last).result != Failure(RawTimeout) ==>
              AttemptsAsWritten(net, n, url, i, last).result == Attempts(net, n, url, i, last).result
    decreases |Schedule| - i
  {
    if i < |Schedule| {
      match AttemptOutcome(net, n, url, i)
      case TimedOut => AsWrittenDiffersOnlyWhenUnbound(net, n, url, i + 1, last);
      case Refused(_) =>
      case Raised(_) =>
      case Answered(reply) =>
        if reply.code != 200 {
          AsWrittenDiffersOnlyWhenUnbound(net, n, url, i + 1, Some(reply));
        }
    }
  }

  /** Four timeouts: the written loop raises UnboundLocalError, the corrected one the timeout. */
  lemma AllTimeoutsUnbound(net: Network, n: nat, url: string)
    requires forall k | 0 <= k < |Schedule| :: AttemptOutcome(net, n, url, k) == TimedOut
    ensures AttemptsAsWritten(net, n, url, 0, None).result == Failure(UnboundResponse)
    ensures Fetch(net, n, url).result == Failure(RawTimeout)
  {
    FetchExhausted(net, n, url);
    assert OutcomesUpTo(net, n, url, 4) == [TimedOut, TimedOut, TimedOut, TimedOut];
    assert LastAnswer(OutcomesUpTo(net, n, url, 4)) == None;
    AsWrittenDiffersOnlyWhenUnbound(net, n, url, 0, None);
  }

  // ---------------------------------------------------------------- the opener

  /** The URL opener: sends requests over the network and remembers every one it sent. */
  class Opener {
    const network: Network
    var log: seq<Request>

    constructor (network: Network)
      ensures this.network == network && log == []
    {
      this.network := network;
      log := [];
    }

    /** `opener.open(url, timeout=timeout)`. */
    method Open(url: string, timeout: nat) returns (o: Outcome)
      modifies this
      ensures log == old(log) + [Request(url, timeout)]
      ensures o == network(|old(log)|, Request(url, timeout))
    {
      o := network(|log|, Request(url, timeout));
      log := log + [Request(url, timeout)];
    }
  }
}
