/** One relay attachment's keepalive. Times are milliseconds of one monotone clock. */
module RelayLink {
  import opened Wrappers

  const KEEPALIVE_INTERVAL: nat := 30_000
  const KEEPALIVE_TIMEOUT: nat := 20_000

  const CLOSE_REVOKED: nat := 4001
  const CLOSE_WRONG_ENDPOINT: nat := 4003

  datatype Disconnect = Retryable | Terminal

  function ClassifyClose(code: nat): Disconnect {
    if code == CLOSE_REVOKED || code == CLOSE_WRONG_ENDPOINT then Terminal else Retryable
  }

  /** What the socket read brings: a pong, something else worth keeping the link for, or its end. */
  datatype Read = Pong | Other | Closed(code: Option<nat>) | Broken

  /** One call of `poll`: when its timers are checked, when its ping, if one is due, is noted as sent and
      as outstanding, and what is then read. */
  datatype Poll = Poll(checked: int, pinged: int, awaited: int, sends: bool, read: Read)

  datatype Link = Link(lastPing: int, awaiting: Option<int>)

  // ---- One poll --------------------------------------------------------------

  predicate TimesOut(link: Link, poll: Poll) {
    link.awaiting.Some? && poll.checked - link.awaiting.value >= KEEPALIVE_TIMEOUT
  }

  predicate Pings(link: Link, poll: Poll) {
    link.awaiting.None? && poll.checked - link.lastPing >= KEEPALIVE_INTERVAL
  }

  function Ticked(link: Link, poll: Poll): Result<Link, Disconnect> {
    if TimesOut(link, poll) then Err(Retryable)
    else if !Pings(link, poll) then Ok(link)
    else if poll.sends then Ok(Link(poll.pinged, Some(poll.awaited)))
    else Err(Retryable)
  }

  function Polled(link: Link, poll: Poll): Result<Link, Disconnect> {
    match Ticked(link, poll)
    case Err(end) => Err(end)
    case Ok(ticked) =>
      match poll.read
      case Pong => Ok(ticked.(awaiting := None))
      case Other => Ok(ticked)
      case Closed(Some(code)) => Err(ClassifyClose(code))
      case Closed(None) => Err(Retryable)
      case Broken => Err(Retryable)
  }

  class RelayLink {
    var lastPing: int
    var awaitingPongSince: Option<int>

    constructor (now: int)
      ensures Contents() == Link(now, None)
    {
      lastPing, awaitingPongSince := now, None;
    }

    function Contents(): Link
      reads this
    {
      Link(lastPing, awaitingPongSince)
    }

    method TickKeepalive(poll: Poll) returns (r: Result<(), Disconnect>)
      modifies this
      ensures match Ticked(old(Contents()), poll)
              case Ok(link) => r.Ok? && Contents() == link
              case Err(end) => r == Err(end)
    {
      if awaitingPongSince.Some? {
        if poll.checked - awaitingPongSince.value >= KEEPALIVE_TIMEOUT {
          return Err(Retryable);
        }
      } else if poll.checked - lastPing >= KEEPALIVE_INTERVAL {
        if !poll.sends {
          return Err(Retryable);
        }
        lastPing := poll.pinged;
        awaitingPongSince := Some(poll.awaited);
      }
      return Ok(());
    }

    /** Keep the keepalive running, then read one frame. */
    method Poll(poll: Poll) returns (r: Result<Option<Read>, Disconnect>)
      modifies this
      ensures match Polled(old(Contents()), poll)
              case Ok(link) => r.Ok? && Contents() == link
              case Err(end) => r == Err(end)
    {
      var ticked := TickKeepalive(poll);
      if ticked.Err? {
        return Err(ticked.error);
      }
      match poll.read {
        case Pong =>
          awaitingPongSince := None;
          return Ok(Some(poll.read));
        case Other => return Ok(Some(poll.read));
        case Closed(Some(code)) => return Err(ClassifyClose(code));
        case Closed(None) => return Err(Retryable);
        case Broken => return Err(Retryable);
      }
    }
  }

  // ---- Runs of polls ---------------------------------------------------------

  /** The link after the polls, while it lives. */
  function After(link: Link, polls: seq<Poll>): Result<Link, Disconnect> {
    if polls == [] then Ok(link)
    else
      match After(link, polls[..|polls| - 1])
      case Err(end) => Err(end)
      case Ok(before) => Polled(before, polls[|polls| - 1])
  }

  /** One monotone clock: a poll's instants are in order, and come before the next poll's. */
  predicate InOrder(from: int, polls: seq<Poll>) {
    polls == []
    || (var n := |polls| - 1;
        && InOrder(from, polls[..n])
        && (if n == 0 then from else polls[n - 1].awaited) <= polls[n].checked <= polls[n].pinged <= polls[n].awaited)
  }

  /** The first poll starts within `gap` of `from`, each later one within `gap` of the one before, and no
      send takes longer than `send`. */
  predicate Regular(from: int, polls: seq<Poll>, gap: nat, send: nat) {
    polls == []
    || (var n := |polls| - 1;
        && Regular(from, polls[..n], gap, send)
        && polls[n].checked <= (if n == 0 then from else polls[n - 1].checked) + gap
        && polls[n].awaited <= polls[n].checked + send)
  }

  /** The poll that sent the ping still unanswered. */
  predicate IsOutstanding(link: Link, polls: seq<Poll>, j: nat, awaited: int) {
    && j < |polls| && polls[j].awaited == awaited && polls[j].sends
    && After(link, polls[..j]).Ok? && Pings(After(link, polls[..j]).value, polls[j])
    && forall k :: j <= k < |polls| ==> polls[k].read != Pong
  }

  lemma OutstandingLasts(link: Link, polls: seq<Poll>, j: nat, awaited: int)
    requires polls != [] && polls[|polls| - 1].read != Pong
    requires IsOutstanding(link, polls[..|polls| - 1], j, awaited)
    ensures IsOutstanding(link, polls, j, awaited)
  {
    assert polls[..|polls| - 1][..j] == polls[..j];
  }

  lemma OutstandingWas(link: Link, polls: seq<Poll>, j: nat, awaited: int)
    requires polls != [] && j < |polls| - 1 && IsOutstanding(link, polls, j, awaited)
    ensures IsOutstanding(link, polls[..|polls| - 1], j, awaited)
  {
    assert polls[..|polls| - 1][..j] == polls[..j];
  }

  /** The link waits for a pong exactly when a ping was sent and no pong has been read since. */
  lemma {:induction false} AwaitsItsPing(link: Link, polls: seq<Poll>, awaited: int)
    requires link.awaiting.None? && After(link, polls).Ok?
    ensures After(link, polls).value.awaiting == Some(awaited) <==> exists j: nat :: IsOutstanding(link, polls, j, awaited)
  {
    if polls != [] {
      var n := |polls| - 1;
      var before := After(link, polls[..n]).value;
      AwaitsItsPing(link, polls[..n], awaited);
      if After(link, polls).value.awaiting == Some(awaited) {
        if before.awaiting == Some(awaited) {
          var j: nat :| IsOutstanding(link, polls[..n], j, awaited);
          OutstandingLasts(link, polls, j, awaited);
        } else {
          assert IsOutstanding(link, polls, n, awaited);
        }
      } else if j: nat :| IsOutstanding(link, polls, j, awaited) {
        if j < n {
          OutstandingWas(link, polls, j, awaited);
        }
      }
    }
  }

  /** The keepalive fails a link exactly when a poll starts the timeout or more after a ping was noted as
      outstanding and no pong was read in between. So a link whose every pong is read before any such
      poll is never failed by it. */
  lemma TimesOutExactlyWhen(link: Link, polls: seq<Poll>, next: Poll)
    requires link.awaiting.None? && After(link, polls).Ok?
    ensures TimesOut(After(link, polls).value, next)
            <==> exists j: nat, awaited :: IsOutstanding(link, polls, j, awaited) && next.checked >= awaited + KEEPALIVE_TIMEOUT
  {
    var now := After(link, polls).value;
    if now.awaiting.Some? {
      AwaitsItsPing(link, polls, now.awaiting.value);
    }
    if j: nat, awaited :| IsOutstanding(link, polls, j, awaited) && next.checked >= awaited + KEEPALIVE_TIMEOUT {
      AwaitsItsPing(link, polls, awaited);
    }
  }

  /** While no pong is read: before its one ping the last poll is early, and after it the ping is recent. */
  lemma {:induction false} SilentLink(link: Link, polls: seq<Poll>, gap: nat, send: nat)
    requires link.awaiting.None? && After(link, polls).Ok? && polls != []
    requires InOrder(link.lastPing, polls) && Regular(link.lastPing, polls, gap, send)
    requires forall poll <- polls :: poll.read != Pong
    ensures var now := After(link, polls).value;
      var last := polls[|polls| - 1];
      if now.awaiting.None? then now == link && last.checked < link.lastPing + KEEPALIVE_INTERVAL
      else
        && now.awaiting.value <= last.awaited && last.checked < now.awaiting.value + KEEPALIVE_TIMEOUT
        && now.awaiting.value < link.lastPing + KEEPALIVE_INTERVAL + gap + send
        && (last.checked < link.lastPing + KEEPALIVE_INTERVAL + gap
            || now.awaiting.value < link.lastPing + KEEPALIVE_INTERVAL + 2 * gap)
  {
    var n := |polls| - 1;
    assert polls[n] in polls;
    if n > 0 {
      SilentLink(link, polls[..n], gap, send);
    } else {
      assert After(link, polls[..n]) == Ok(link);
    }
  }

  /** Polled at most `gap` apart, a link on which no pong is read is found dead by the poll that reaches
      `lastPing` + 50 s + 2 · `gap`, less the two milliseconds a poll can fall short of each timer; a slow send
      of its ping delays that by the send, which ends before the next poll starts. */
  lemma SilenceIsReported(link: Link, polls: seq<Poll>, gap: nat, send: nat)
    requires link.awaiting.None? && polls != []
    requires InOrder(link.lastPing, polls) && Regular(link.lastPing, polls, gap, send)
    requires forall poll <- polls :: poll.read != Pong
    requires After(link, polls[..|polls| - 1]).Ok?
    ensures polls[|polls| - 1].checked <= Deadline(link, gap, send)
    ensures polls[|polls| - 1].checked >= link.lastPing + KEEPALIVE_INTERVAL + KEEPALIVE_TIMEOUT + gap + send ==>
              After(link, polls).Err?
  {
    var n := |polls| - 1;
    if n > 0 {
      SilentLink(link, polls[..n], gap, send);
    }
    if After(link, polls).Ok? {
      SilentLink(link, polls, gap, send);
    }
  }

  function Deadline(link: Link, gap: nat, send: nat): int {
    link.lastPing + KEEPALIVE_INTERVAL - 1 + gap + Min(send, gap) + KEEPALIVE_TIMEOUT - 1 + gap
  }

  // ---- The deadline is reached -------------------------------------------------

  /** A run of polls on which no pong is read, where it has got to, and the instants of its last poll. */
  predicate IsSilentRun(link: Link, polls: seq<Poll>, gap: nat, send: nat, now: Link, checked: int, awaited: int) {
    && InOrder(link.lastPing, polls) && Regular(link.lastPing, polls, gap, send)
    && (forall poll <- polls :: poll.read != Pong)
    && After(link, polls) == Ok(now)
    && (if polls == [] then checked == awaited == link.lastPing
        else checked == polls[|polls| - 1].checked && awaited == polls[|polls| - 1].awaited)
  }

  lemma SilentRunGrows(link: Link, polls: seq<Poll>, gap: nat, send: nat, now: Link, checked: int, awaited: int, poll: Poll)
    requires IsSilentRun(link, polls, gap, send, now, checked, awaited) && poll.read == Other
    requires awaited <= poll.checked <= poll.pinged <= poll.awaited
    requires poll.checked <= checked + gap && poll.awaited <= poll.checked + send
    ensures var longer := polls + [poll];
      && InOrder(link.lastPing, longer) && Regular(link.lastPing, longer, gap, send)
      && (forall p <- longer :: p.read != Pong)
      && After(link, longer) == Polled(now, poll)
      && (Polled(now, poll).Ok? ==>
            IsSilentRun(link, longer, gap, send, Polled(now, poll).value, poll.checked, poll.awaited))
  {
    assert (polls + [poll])[..|polls|] == polls;
  }

  /** A poll that sends nothing and reads nothing of interest. */
  function Still(at: int): Poll {
    Poll(at, at, at, true, Other)
  }

  /** Polls a millisecond apart that no timer reaches leave the link as it is. */
  lemma {:induction false} StaysSilent(link: Link, polls: seq<Poll>, gap: nat, send: nat, now: Link, checked: int,
                                       awaited: int, from: int, until: int) returns (longer: seq<Poll>)
    requires IsSilentRun(link, polls, gap, send, now, checked, awaited) && gap >= 1
    requires awaited <= from <= checked + gap && from <= until
    requires !TimesOut(now, Still(until)) && !Pings(now, Still(until))
    ensures IsSilentRun(link, longer, gap, send, now, until, until)
    decreases until - from
  {
    hide IsSilentRun;
    hide InOrder;
    hide Regular;
    hide After;
    if from == until {
      SilentRunGrows(link, polls, gap, send, now, checked, awaited, Still(until));
      longer := polls + [Still(until)];
    } else {
      longer := StaysSilent(link, polls, gap, send, now, checked, awaited, from, until - 1);
      SilentRunGrows(link, longer, gap, send, now, until - 1, until - 1, Still(until));
      longer := longer + [Still(until)];
    }
  }

  /** The ping as late as the gap allows. */
  lemma PingsLate(link: Link, gap: nat, send: nat) returns (polls: seq<Poll>)
    requires link.awaiting.None? && 1 <= gap
    ensures var sent := link.lastPing + KEEPALIVE_INTERVAL - 1 + gap;
      IsSilentRun(link, polls, gap, send, Link(sent, Some(sent + send)), sent, sent + send)
  {
    var early := link.lastPing + KEEPALIVE_INTERVAL - 1;
    assert IsSilentRun(link, [], gap, send, link, link.lastPing, link.lastPing);
    hide IsSilentRun;
    polls := StaysSilent(link, [], gap, send, link, link.lastPing, link.lastPing, link.lastPing, early);
    var ping := Poll(early + gap, early + gap, early + gap + send, true, Other);
    SilentRunGrows(link, polls, gap, send, link, early, early, ping);
    polls := polls + [ping];
  }

  /** For every gap and every send that fits in it there is a silent link found dead no sooner than that. */
  lemma TheDeadlineIsReached(link: Link, gap: nat, send: nat) returns (polls: seq<Poll>)
    requires link.awaiting.None? && 1 <= gap && send <= gap
    ensures polls != [] && InOrder(link.lastPing, polls) && Regular(link.lastPing, polls, gap, send)
    ensures forall poll <- polls :: poll.read != Pong
    ensures After(link, polls[..|polls| - 1]).Ok? && After(link, polls) == Err(Retryable)
    ensures polls[|polls| - 1].checked == Deadline(link, gap, send)
  {
    var sent := link.lastPing + KEEPALIVE_INTERVAL - 1 + gap;
    var pinged, waited := Link(sent, Some(sent + send)), sent + send + KEEPALIVE_TIMEOUT - 1;
    var before := PingsLate(link, gap, send);
    before := StaysSilent(link, before, gap, send, pinged, sent, sent + send, sent + send, waited);
    assert After(link, before) == Ok(pinged);
    hide IsSilentRun;
    hide InOrder;
    hide Regular;
    hide After;
    SilentRunGrows(link, before, gap, send, pinged, waited, waited, Still(waited + gap));
    polls := before + [Still(waited + gap)];
    assert polls[..|polls| - 1] == before;
  }
}
