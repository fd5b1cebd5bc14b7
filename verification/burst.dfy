/**
 * The client's burst loop: for each message pair it sends a request chained to
 * the previous exchange, waits for a reply that the duplicate guard accepts,
 * resends when every reply in the deadline window was a duplicate, and stores
 * one (offset, delay) sample per accepted reply until the burst is full.
 *
 * The socket and the clock are inputs: each `Send` carries the host clock
 * reading taken for the request and the number of receives the one-second
 * deadline admits; `inbox` is the stream of datagrams the socket delivers,
 * each decoded and paired with the clock reading taken when it arrived.
 */
module Burst {
  import opened Packet
  import opened NtpTime
  import opened Exchange

  /** A datagram taken off the socket: the decoded reply and the host clock just after it arrived. */
  datatype Receipt = Receipt(reply: Frame<real>, clock: real)

  /** One transmission: the host clock for its transmit timestamp, and how many receives its deadline allows. */
  datatype Send = Send(clock: real, receives: nat)

  /**
   * The per-burst lists: org_timestamp, rcv_timestamp and xmt_timestamp, which
   * feed both the chaining and the duplicate guard, and oi_di_list.
   */
  datatype Chains = Chains(orgs: seq<real>, rcvs: seq<real>, xmts: seq<real>, samples: seq<Sample>)

  /** How a burst ends: full, out of modelled sends, or blocked in recvfrom with nothing left to arrive. */
  datatype Status = Filled | OutOfSends | Hung

  datatype BurstRun = BurstRun(status: Status, chains: Chains, sent: seq<Frame<real>>, consumed: nat)

  /** Where the wait for one request ends. */
  datatype Wait = Accepted(receipt: Receipt, next: nat) | AllDuplicates(next: nat) | Starved

  /**
   * The shape the lists keep: the two chained lists are one longer than the
   * number of samples (message_pair), start with the sentinel 0, and the
   * transmit list has one entry per sample.
   */
  predicate Valid(c: Chains)
  {
    && |c.orgs| == |c.samples| + 1 && |c.rcvs| == |c.samples| + 1 && |c.xmts| == |c.samples|
    && c.orgs[0] == 0.0 && c.rcvs[0] == 0.0
  }

  /** `c` is an earlier state of `d`: every list of `d` starts with the matching list of `c`. */
  predicate Prefix(c: Chains, d: Chains)
  {
    c.orgs <= d.orgs && c.rcvs <= d.rcvs && c.xmts <= d.xmts && c.samples <= d.samples
  }

  predicate EachSendReceives(sends: seq<Send>)
  {
    forall i :: 0 <= i < |sends| ==> sends[i].receives >= 1
  }

  /** The lists at the start of a burst: `[0]`, `[0]`, `[]`, `[]`. */
  function Seeded(): Chains
  {
    Chains([0.0], [0.0], [], [])
  }

  /** The request for the current message pair: a fresh client packet carrying the chained org and rcv values. */
  function Request(c: Chains, clock: real): Frame<real>
    requires Valid(c)
  {
    DefaultFrame(MODE_CLIENT, 0.0, 0.0).(
      orgTimestamp := c.orgs[|c.samples|],
      rcvTimestamp := c.rcvs[|c.samples|],
      xmtTimestamp := SystemToNtpTime(clock))
  }

  /** The request is a client packet whose org and rcv fields are entry `m` of the chained lists. */
  predicate ChainedAt(request: Frame<real>, c: Chains, m: nat)
  {
    && request.li == 0 && request.version == 4 && request.mode == MODE_CLIENT
    && m < |c.orgs| && m < |c.rcvs| && c.orgs[m] == request.orgTimestamp && c.rcvs[m] == request.rcvTimestamp
  }

  /**
   * The request is a client packet whose org and rcv fields are the last
   * entries of the chained lists, the entry of the current message pair, and
   * whose transmit timestamp is the clock reading of this send.
   */
  lemma RequestFields(c: Chains, clock: real)
    requires Valid(c)
    ensures var request := Request(c, clock);
      && request.li == 0 && request.version == 4 && request.mode == MODE_CLIENT
      && request.orgTimestamp == c.orgs[|c.orgs| - 1] && request.rcvTimestamp == c.rcvs[|c.rcvs| - 1]
      && ChainedAt(request, c, |c.samples|)
      && request.xmtTimestamp == SystemToNtpTime(clock)
  {
  }

  predicate Duplicate(c: Chains, reply: Frame<real>)
  {
    IsDuplicate(reply, c.orgs, c.rcvs, c.xmts)
  }

  /** Recording an accepted reply: its sample, its transmit time, its arrival time and the request's transmit time. */
  function Accept(c: Chains, rc: Receipt, requestXmt: real): (d: Chains)
    requires Valid(c)
    ensures Valid(d) && Prefix(c, d) && |d.samples| == |c.samples| + 1
    ensures d.samples[|c.samples|]
         == Measure(rc.reply.orgTimestamp, rc.reply.rcvTimestamp, rc.reply.xmtTimestamp, SystemToNtpTime(rc.clock))
  {
    var t4 := SystemToNtpTime(rc.clock);
    var r := rc.reply;
    Chains(c.orgs + [r.xmtTimestamp], c.rcvs + [t4], c.xmts + [requestXmt],
           c.samples + [Measure(r.orgTimestamp, r.rcvTimestamp, r.xmtTimestamp, t4)])
  }

  /**
   * The wait after one send: up to `budget` receives from position `p`, stopping
   * at the first reply the guard does not flag. Runs out of input (recvfrom
   * would block for good) when the stream ends first.
   */
  function Await(c: Chains, inbox: seq<Receipt>, p: nat, budget: nat): (w: Wait)
    requires p <= |inbox|
    ensures w.Accepted? ==>
      && p < w.next <= p + budget && w.next <= |inbox| && w.receipt == inbox[w.next - 1]
      && !Duplicate(c, w.receipt.reply)
      && forall q :: p <= q < w.next - 1 ==> Duplicate(c, inbox[q].reply)
    ensures w.AllDuplicates? ==>
      && w.next == p + budget <= |inbox|
      && forall q :: p <= q < w.next ==> Duplicate(c, inbox[q].reply)
    ensures w.Starved? ==>
      && |inbox| < p + budget
      && forall q :: p <= q < |inbox| ==> Duplicate(c, inbox[q].reply)
    decreases budget
  {
    if budget == 0 then AllDuplicates(p)
    else if p == |inbox| then Starved
    else if Duplicate(c, inbox[p].reply) then Await(c, inbox, p + 1, budget - 1)
    else Accepted(inbox[p], p + 1)
  }

  /** What one pass of the loop body leaves: the burst is over, or the loop goes round again. */
  datatype Step = Stop(run: BurstRun) | Continue(chains: Chains, next: nat, sent: seq<Frame<real>>)

  /**
   * One pass of the burst loop from send `s` and stream position `p`, with
   * lists `c` and the requests `sent` so far: the guard, the send, the wait,
   * and either a resend or the recording of the accepted reply.
   */
  function Advance(burstSize: nat, c: Chains, sends: seq<Send>, s: nat, inbox: seq<Receipt>, p: nat,
                   sent: seq<Frame<real>>): (step: Step)
    requires Valid(c) && s <= |sends| && p <= |inbox| && EachSendReceives(sends)
    ensures step.Stop? ==>
      && step.run.chains == c && p <= step.run.consumed <= |inbox|
      && (step.run.status == Filled <==> |c.samples| >= burstSize)
      && (step.run.status == OutOfSends ==> s == |sends| && step.run.sent == sent)
      && (step.run.status == Hung ==> s < |sends| && step.run.sent == sent + [Request(c, sends[s].clock)])
      && (step.run.status == Filled ==> step.run.sent == sent)
    ensures step.Continue? ==>
      && s < |sends| && |c.samples| < burstSize && p <= step.next <= |inbox|
      && Valid(step.chains) && Prefix(c, step.chains) && |step.chains.samples| <= |c.samples| + 1
      && step.sent == sent + [Request(c, sends[s].clock)]
  {
    if |c.samples| >= burstSize then Stop(BurstRun(Filled, c, sent, p))
    else if s == |sends| then Stop(BurstRun(OutOfSends, c, sent, p))
    else
      var request := Request(c, sends[s].clock);
      match Await(c, inbox, p, sends[s].receives)
      case Starved => Stop(BurstRun(Hung, c, sent + [request], |inbox|))
      case AllDuplicates(q) => Continue(c, q, sent + [request])
      case Accepted(rc, q) => Continue(Accept(c, rc, request.xmtTimestamp), q, sent + [request])
  }

  /**
   * The burst loop from send `s` on: passes of `Advance` until one stops. The
   * stream is read forward only, and never past its end.
   */
  function Run(burstSize: nat, c: Chains, sends: seq<Send>, s: nat, inbox: seq<Receipt>, p: nat,
               sent: seq<Frame<real>>): (r: BurstRun)
    requires Valid(c) && s <= |sends| && p <= |inbox| && EachSendReceives(sends)
    ensures p <= r.consumed <= |inbox|
    decreases |sends| - s
  {
    match Advance(burstSize, c, sends, s, inbox, p, sent)
    case Stop(run) => run
    case Continue(d, q, sent') => Run(burstSize, d, sends, s + 1, inbox, q, sent')
  }

  /**
   * message_pair at each request the loop sends from send `s` on: the number
   * of samples the burst held when that request was built. It starts at the
   * current count, stays below burst_size, and between two sends it stays or
   * moves up by one.
   */
  function MessagePairs(burstSize: nat, c: Chains, sends: seq<Send>, s: nat, inbox: seq<Receipt>, p: nat,
                        sent: seq<Frame<real>>): (m: seq<nat>)
    requires Valid(c) && s <= |sends| && p <= |inbox| && EachSendReceives(sends)
    ensures forall i :: 0 <= i < |m| ==> |c.samples| <= m[i] < burstSize
    ensures |m| > 0 ==> m[0] == |c.samples|
    ensures forall i :: 0 < i < |m| ==> m[i - 1] <= m[i] <= m[i - 1] + 1
    decreases |sends| - s
  {
    match Advance(burstSize, c, sends, s, inbox, p, sent)
    case Stop(run) => if run.status == Hung then [|c.samples|] else []
    case Continue(d, q, sent') => [|c.samples|] + MessagePairs(burstSize, d, sends, s + 1, inbox, q, sent')
  }

  /** The first request of a burst carries the sentinels 0 in its org and rcv fields. */
  lemma FirstRequestUnchained(clock: real)
    ensures Request(Seeded(), clock).orgTimestamp == 0.0 && Request(Seeded(), clock).rcvTimestamp == 0.0
  {
  }

  /**
   * After a reply is recorded, the next request carries that reply's transmit
   * timestamp as its origin and the client's arrival reading as its receive time.
   */
  lemma RequestAfterAccept(c: Chains, rc: Receipt, requestXmt: real, clock: real)
    requires Valid(c)
    ensures Request(Accept(c, rc, requestXmt), clock).orgTimestamp == rc.reply.xmtTimestamp
    ensures Request(Accept(c, rc, requestXmt), clock).rcvTimestamp == SystemToNtpTime(rc.clock)
  {
  }

  /** A request chained to an earlier state of the lists stays chained, at the same entry, to every later one. */
  lemma ChainedLater(request: Frame<real>, c: Chains, d: Chains, m: nat)
    requires ChainedAt(request, c, m) && Prefix(c, d)
    ensures ChainedAt(request, d, m)
  {
    assert d.orgs[m] == c.orgs[m] && d.rcvs[m] == c.rcvs[m];
  }

  /**
   * What the burst loop keeps: the list shape, that the lists only grow, and
   * that the burst stops full exactly when it holds burst_size samples.
   */
  lemma {:induction false} RunChains(burstSize: nat, c: Chains, sends: seq<Send>, s: nat, inbox: seq<Receipt>,
                                     p: nat, sent: seq<Frame<real>>)
    requires Valid(c) && |c.samples| <= burstSize && s <= |sends| && p <= |inbox| && EachSendReceives(sends)
    ensures var r := Run(burstSize, c, sends, s, inbox, p, sent);
      && Valid(r.chains) && Prefix(c, r.chains) && |r.chains.samples| <= burstSize
      && (r.status == Filled <==> |r.chains.samples| == burstSize)
    decreases |sends| - s
  {
    match Advance(burstSize, c, sends, s, inbox, p, sent)
    case Stop(run) => {
    }
    case Continue(d, q, sent') => {
      RunChains(burstSize, d, sends, s + 1, inbox, q, sent');
    }
  }

  /** Every send of the loop appends exactly one request, so the requests only grow, by at most the sends left. */
  lemma {:induction false} RunSends(burstSize: nat, c: Chains, sends: seq<Send>, s: nat, inbox: seq<Receipt>,
                                    p: nat, sent: seq<Frame<real>>)
    requires Valid(c) && s <= |sends| && p <= |inbox| && EachSendReceives(sends)
    ensures var r := Run(burstSize, c, sends, s, inbox, p, sent);
      sent <= r.sent && |r.sent| - |sent| <= |sends| - s
    decreases |sends| - s
  {
    match Advance(burstSize, c, sends, s, inbox, p, sent)
    case Stop(run) => {
    }
    case Continue(d, q, sent') => {
      RunSends(burstSize, d, sends, s + 1, inbox, q, sent');
      assert |sent'| == |sent| + 1 && sent <= sent';
    }
  }

  /** A burst that runs out of sends has used every one of them. */
  lemma {:induction false} RunUsesEverySend(burstSize: nat, c: Chains, sends: seq<Send>, s: nat, inbox: seq<Receipt>,
                                            p: nat, sent: seq<Frame<real>>)
    requires Valid(c) && s <= |sends| && p <= |inbox| && EachSendReceives(sends)
    ensures var r := Run(burstSize, c, sends, s, inbox, p, sent);
      r.status == OutOfSends ==> |r.sent| - |sent| == |sends| - s
    decreases |sends| - s
  {
    match Advance(burstSize, c, sends, s, inbox, p, sent)
    case Stop(run) => {
    }
    case Continue(d, q, sent') => {
      RunUsesEverySend(burstSize, d, sends, s + 1, inbox, q, sent');
    }
  }

  /** Each sample took a send of its own: the samples grow by no more than the requests sent. */
  lemma {:induction false} RunSamplesPerSend(burstSize: nat, c: Chains, sends: seq<Send>, s: nat, inbox: seq<Receipt>,
                                             p: nat, sent: seq<Frame<real>>)
    requires Valid(c) && s <= |sends| && p <= |inbox| && EachSendReceives(sends)
    ensures var r := Run(burstSize, c, sends, s, inbox, p, sent);
      |r.chains.samples| - |c.samples| <= |r.sent| - |sent|
    decreases |sends| - s
  {
    match Advance(burstSize, c, sends, s, inbox, p, sent)
    case Stop(run) => {
    }
    case Continue(d, q, sent') => {
      RunSamplesPerSend(burstSize, d, sends, s + 1, inbox, q, sent');
    }
  }

  /**
   * Request `i` of `requests` was built for send `i` of `sends`, from entry
   * `m[i]` of the chained lists `c`.
   */
  predicate SentFrom(requests: seq<Frame<real>>, sends: seq<Send>, m: seq<nat>, c: Chains)
  {
    && |requests| == |m| <= |sends|
    && forall i :: 0 <= i < |m| ==>
         requests[i].xmtTimestamp == SystemToNtpTime(sends[i].clock) && ChainedAt(requests[i], c, m[i])
  }

  /** Putting in front the request of one more send, chained at entry `n` of an earlier state of the lists. */
  lemma SentFromEarlier(request: Frame<real>, send: Send, c: Chains, n: nat, requests: seq<Frame<real>>,
                        sends: seq<Send>, m: seq<nat>, d: Chains)
    requires SentFrom(requests, sends, m, d)
    requires request.xmtTimestamp == SystemToNtpTime(send.clock)
    requires ChainedAt(request, c, n) && Prefix(c, d)
    ensures SentFrom([request] + requests, [send] + sends, [n] + m, d)
  {
    ChainedLater(request, c, d, n);
    var requests', sends', m' := [request] + requests, [send] + sends, [n] + m;
    forall i | 0 <= i < |m'|
      ensures requests'[i].xmtTimestamp == SystemToNtpTime(sends'[i].clock) && ChainedAt(requests'[i], d, m'[i])
    {
      if i > 0 {
        assert requests'[i] == requests[i - 1] && sends'[i] == sends[i - 1] && m'[i] == m[i - 1];
      }
    }
  }

  /**
   * Every request the loop sends is a mode-3 packet carrying the clock reading
   * of its send as transmit timestamp, and the org/rcv entry of the chained
   * lists at the message pair it was built for: the last entries then, which
   * are the sentinels or the latest accepted reply's T3 and arrival time T4.
   */
  lemma {:induction false} RunRequestsChained(burstSize: nat, c: Chains, sends: seq<Send>, s: nat,
                                              inbox: seq<Receipt>, p: nat, sent: seq<Frame<real>>)
    requires Valid(c) && s <= |sends| && p <= |inbox| && EachSendReceives(sends)
    ensures var r := Run(burstSize, c, sends, s, inbox, p, sent);
      sent <= r.sent && SentFrom(r.sent[|sent|..], sends[s..], MessagePairs(burstSize, c, sends, s, inbox, p, sent), r.chains)
    decreases |sends| - s
  {
    var r := Run(burstSize, c, sends, s, inbox, p, sent);
    var m := MessagePairs(burstSize, c, sends, s, inbox, p, sent);
    match Advance(burstSize, c, sends, s, inbox, p, sent)
    case Stop(run) => {
      assert r == run;
      if run.status == Hung {
        var request := Request(c, sends[s].clock);
        RequestFields(c, sends[s].clock);
        assert r.sent[|sent|..] == [request] + [] && m == [|c.samples|] + [];
        assert sends[s..] == [sends[s]] + sends[s + 1..];
        SentFromEarlier(request, sends[s], c, |c.samples|, [], sends[s + 1..], [], r.chains);
      } else {
        assert r.sent[|sent|..] == [] && m == [];
      }
    }
    case Continue(d, q, sent') => {
      var request := Request(c, sends[s].clock);
      var m' := MessagePairs(burstSize, d, sends, s + 1, inbox, q, sent');
      RunRequestsChained(burstSize, d, sends, s + 1, inbox, q, sent');
      RunSends(burstSize, d, sends, s + 1, inbox, q, sent');
      RunChains(burstSize, d, sends, s + 1, inbox, q, sent');
      RequestFields(c, sends[s].clock);
      assert r == Run(burstSize, d, sends, s + 1, inbox, q, sent');
      assert sent' == sent + [request] && m == [|c.samples|] + m';
      assert r.sent[|sent|..] == [request] + r.sent[|sent'|..];
      assert sends[s..] == [sends[s]] + sends[s + 1..];
      SentFromEarlier(request, sends[s], c, |c.samples|, r.sent[|sent'|..], sends[s + 1..], m', r.chains);
    }
  }

  /** The pass of the loop that finds the burst full, or no send left. */
  lemma RunStops(burstSize: nat, c: Chains, sends: seq<Send>, s: nat, inbox: seq<Receipt>, p: nat,
                 sent: seq<Frame<real>>)
    requires Valid(c) && s <= |sends| && p <= |inbox| && EachSendReceives(sends)
    requires |c.samples| >= burstSize || s == |sends|
    ensures Run(burstSize, c, sends, s, inbox, p, sent)
         == BurstRun(if |c.samples| >= burstSize then Filled else OutOfSends, c, sent, p)
  {
  }

  /** The pass of the loop whose wait runs out of input: recvfrom blocks for good. */
  lemma RunHangs(burstSize: nat, c: Chains, sends: seq<Send>, s: nat, inbox: seq<Receipt>, p: nat,
                 sent: seq<Frame<real>>)
    requires Valid(c) && |c.samples| < burstSize && s < |sends| && p <= |inbox| && EachSendReceives(sends)
    requires Await(c, inbox, p, sends[s].receives).Starved?
    ensures Run(burstSize, c, sends, s, inbox, p, sent)
         == BurstRun(Hung, c, sent + [Request(c, sends[s].clock)], |inbox|)
  {
  }

  /** The pass of the loop whose every reply was flagged: the request is sent anew. */
  lemma RunResends(burstSize: nat, c: Chains, sends: seq<Send>, s: nat, inbox: seq<Receipt>, p: nat,
                   sent: seq<Frame<real>>)
    requires Valid(c) && |c.samples| < burstSize && s < |sends| && p <= |inbox| && EachSendReceives(sends)
    requires Await(c, inbox, p, sends[s].receives).AllDuplicates?
    ensures Await(c, inbox, p, sends[s].receives).next <= |inbox|
    ensures Run(burstSize, c, sends, s, inbox, p, sent)
         == Run(burstSize, c, sends, s + 1, inbox, Await(c, inbox, p, sends[s].receives).next,
                sent + [Request(c, sends[s].clock)])
  {
  }

  /** The pass of the loop that accepts a reply and records it in the four lists. */
  lemma RunRecords(burstSize: nat, c: Chains, sends: seq<Send>, s: nat, inbox: seq<Receipt>, p: nat,
                   sent: seq<Frame<real>>, w: Wait)
    requires Valid(c) && |c.samples| < burstSize && s < |sends| && p <= |inbox| && EachSendReceives(sends)
    requires w == Await(c, inbox, p, sends[s].receives) && w.Accepted?
    ensures w.next <= |inbox|
    ensures var request := Request(c, sends[s].clock);
      var obj := w.receipt.reply;
      var t4 := SystemToNtpTime(w.receipt.clock);
      var d := Chains(c.orgs + [obj.xmtTimestamp], c.rcvs + [t4], c.xmts + [request.xmtTimestamp],
                      c.samples + [Measure(obj.orgTimestamp, obj.rcvTimestamp, obj.xmtTimestamp, t4)]);
      Valid(d) && Run(burstSize, c, sends, s, inbox, p, sent) == Run(burstSize, d, sends, s + 1, inbox, w.next, sent + [request])
  {
  }

  /**
   * The receive loop after one send: recvfrom until a reply the guard does not
   * flag arrives or the deadline has admitted its receives.
   */
  method ReceiveReply(c: Chains, inbox: seq<Receipt>, p: nat, receives: nat) returns (w: Wait)
    requires p <= |inbox|
    ensures w == Await(c, inbox, p, receives)
  {
    var received := 0;
    var q := p;
    while received < receives
      invariant received <= receives && q == p + received <= |inbox|
      invariant Await(c, inbox, p, receives) == Await(c, inbox, q, receives - received)
    {
      if q == |inbox| {
        return Starved;
      }
      var obj := inbox[q].reply;
      q, received := q + 1, received + 1;
      var duplicate := IsDuplicate(obj, c.orgs, c.rcvs, c.xmts);
      if !duplicate {
        return Accepted(inbox[q - 1], q);
      }
    }
    return AllDuplicates(q);
  }

  /**
   * The loop of main for one burst (`counter`), from stream position `start`.
   * It returns what the loop leaves behind, and follows `Run` step for step.
   */
  method RunBurst(burstSize: nat, sends: seq<Send>, inbox: seq<Receipt>, start: nat) returns (run: BurstRun)
    requires start <= |inbox| && EachSendReceives(sends)
    ensures run == Run(burstSize, Seeded(), sends, 0, inbox, start, [])
  {
    var orgTimestamp: seq<real> := [0.0];
    var rcvTimestamp: seq<real> := [0.0];
    var xmtTimestamp: seq<real> := [];
    var messagePair: nat := 0;
    var oiDiList: seq<Sample> := [];
    var sent: seq<Frame<real>> := [];
    var s, p := 0, start;
    ghost var goal := Run(burstSize, Seeded(), sends, 0, inbox, start, []);
    while messagePair < burstSize
      invariant s <= |sends| && start <= p <= |inbox|
      invariant messagePair == |oiDiList|
      invariant Valid(Chains(orgTimestamp, rcvTimestamp, xmtTimestamp, oiDiList))
      invariant Run(burstSize, Chains(orgTimestamp, rcvTimestamp, xmtTimestamp, oiDiList), sends, s, inbox, p, sent) == goal
      decreases |sends| - s
    {
      var chains := Chains(orgTimestamp, rcvTimestamp, xmtTimestamp, oiDiList);
      if s == |sends| {
        RunStops(burstSize, chains, sends, s, inbox, p, sent);
        return BurstRun(OutOfSends, chains, sent, p);
      }
      var packet := DefaultFrame(MODE_CLIENT, 0.0, 0.0);
      packet := packet.(orgTimestamp := orgTimestamp[messagePair], rcvTimestamp := rcvTimestamp[messagePair]);
      packet := packet.(xmtTimestamp := SystemToNtpTime(sends[s].clock));
      assert packet == Request(chains, sends[s].clock);
      ghost var before := sent;
      sent := sent + [packet];

      var w := ReceiveReply(chains, inbox, p, sends[s].receives);
      if w.Starved? {
        RunHangs(burstSize, chains, sends, s, inbox, p, before);
        return BurstRun(Hung, chains, sent, |inbox|);
      }
      if w.AllDuplicates? {
        RunResends(burstSize, chains, sends, s, inbox, p, before);
        p, s := w.next, s + 1;
        continue;
      }
      RunRecords(burstSize, chains, sends, s, inbox, p, before, w);
      var obj, currentRcvTimestamp := w.receipt.reply, SystemToNtpTime(w.receipt.clock);
      var di := Delay(obj.orgTimestamp, obj.rcvTimestamp, obj.xmtTimestamp, currentRcvTimestamp);
      var oi := Offset(obj.orgTimestamp, obj.rcvTimestamp, obj.xmtTimestamp, currentRcvTimestamp);
      var sample := Sample(oi * 1000.0, di * 1000.0);
      assert sample == Measure(obj.orgTimestamp, obj.rcvTimestamp, obj.xmtTimestamp, currentRcvTimestamp);
      oiDiList := oiDiList + [sample];
      orgTimestamp := orgTimestamp + [obj.xmtTimestamp];
      rcvTimestamp := rcvTimestamp + [currentRcvTimestamp];
      xmtTimestamp := xmtTimestamp + [packet.xmtTimestamp];
      messagePair := messagePair + 1;
      p, s := w.next, s + 1;
    }
    RunStops(burstSize, Chains(orgTimestamp, rcvTimestamp, xmtTimestamp, oiDiList), sends, s, inbox, p, sent);
    run := BurstRun(Filled, Chains(orgTimestamp, rcvTimestamp, xmtTimestamp, oiDiList), sent, p);
  }

  /** A burst run with `sends` from stream position `start` fills up, storing `samples` and stopping at `next`. */
  predicate FilledFrom(burstSize: nat, sends: seq<Send>, inbox: seq<Receipt>, start: nat, samples: seq<Sample>, next: nat)
    requires EachSendReceives(sends)
  {
    && start <= |inbox|
    && var run := Run(burstSize, Seeded(), sends, 0, inbox, start, []);
       run.status == Filled && run.chains.samples == samples && run.consumed == next
  }

  /**
   * `bursts[k]` is what burst `k` of the plan stores when it starts reading the
   * stream at `starts[k]`: each of those bursts filled up, and the next one
   * reads on where it stopped.
   */
  predicate Stored(burstSize: nat, plan: seq<seq<Send>>, inbox: seq<Receipt>, bursts: seq<seq<Sample>>, starts: seq<nat>)
    requires forall k :: 0 <= k < |plan| ==> EachSendReceives(plan[k])
  {
    && |starts| == |bursts| + 1 && |bursts| <= |plan| && starts[0] == 0
    && (forall k :: 0 <= k < |starts| ==> starts[k] <= |inbox|)
    && forall k :: 0 <= k < |bursts| ==> FilledFrom(burstSize, plan[k], inbox, starts[k], bursts[k], starts[k + 1])
  }

  /** One more filled burst, read from where the stored ones stopped, extends what is stored. */
  lemma StoredExtend(burstSize: nat, plan: seq<seq<Send>>, inbox: seq<Receipt>, bursts: seq<seq<Sample>>,
                     starts: seq<nat>, samples: seq<Sample>, next: nat)
    requires forall k :: 0 <= k < |plan| ==> EachSendReceives(plan[k])
    requires Stored(burstSize, plan, inbox, bursts, starts) && |bursts| < |plan| && next <= |inbox|
    requires FilledFrom(burstSize, plan[|bursts|], inbox, starts[|bursts|], samples, next)
    ensures Stored(burstSize, plan, inbox, bursts + [samples], starts + [next])
  {
    var bursts', starts' := bursts + [samples], starts + [next];
    forall k | 0 <= k < |bursts'|
      ensures FilledFrom(burstSize, plan[k], inbox, starts'[k], bursts'[k], starts'[k + 1])
    {
      assert starts'[k] == starts[k];
      if k < |bursts| {
        assert bursts'[k] == bursts[k] && starts'[k + 1] == starts[k + 1];
      }
    }
  }

  /**
   * The bursts of main, one after another on the same socket: burst `counter`
   * uses the sends `plan[counter]` and reads on where the previous burst stopped.
   * `bursts[counter]` is burst_offset_delay_list[counter]. The session ends
   * early with the status of the first burst that did not fill up, or
   * `OutOfSends` when the plan has no sends left for another burst.
   */
  method RunSession(burstSize: nat, burstCounter: nat, plan: seq<seq<Send>>, inbox: seq<Receipt>)
    returns (bursts: seq<seq<Sample>>, status: Status, ghost starts: seq<nat>)
    requires forall k :: 0 <= k < |plan| ==> EachSendReceives(plan[k])
    ensures |bursts| <= burstCounter
    ensures status == Filled <==> |bursts| == burstCounter
    ensures forall k :: 0 <= k < |bursts| ==> |bursts[k]| == burstSize
    ensures Stored(burstSize, plan, inbox, bursts, starts)
    ensures status != Filled ==>
      if |bursts| == |plan| then status == OutOfSends
      else Run(burstSize, Seeded(), plan[|bursts|], 0, inbox, starts[|bursts|], []).status == status
  {
    bursts, starts := [], [0];
    var p: nat := 0;
    for counter := 0 to burstCounter
      invariant |bursts| == counter <= |plan|
      invariant forall k :: 0 <= k < |bursts| ==> |bursts[k]| == burstSize
      invariant Stored(burstSize, plan, inbox, bursts, starts) && p == starts[counter]
    {
      if counter == |plan| {
        return bursts, OutOfSends, starts;
      }
      var run := RunBurst(burstSize, plan[counter], inbox, p);
      RunChains(burstSize, Seeded(), plan[counter], 0, inbox, p, []);
      if run.status != Filled {
        return bursts, run.status, starts;
      }
      StoredExtend(burstSize, plan, inbox, bursts, starts, run.chains.samples, run.consumed);
      bursts, starts := bursts + [run.chains.samples], starts + [run.consumed];
      p := run.consumed;
    }
    status := Filled;
  }

  /**
   * The guard compares each field with the list kept for it, and the lists hold
   * other values than the reply carried: a second copy of the reply the burst
   * has just accepted is accepted again and counted as a second sample.
   */
  lemma ReplayedReplyIsAcceptedAgain()
    ensures
      var reply := DefaultFrame(MODE_SERVER, 0.0, 0.0).(orgTimestamp := 100.0, rcvTimestamp := 105.0, xmtTimestamp := 105.0);
      var copy := Receipt(reply, NtpToSystemTime(102.0));
      var sends := [Send(NtpToSystemTime(100.0), 1), Send(NtpToSystemTime(103.0), 1)];
      var r := Run(2, Seeded(), sends, 0, [copy, copy], 0, []);
      r.status == Filled && r.chains.samples == [Sample(4000.0, 2000.0), Sample(4000.0, 2000.0)]
  {
    var reply := DefaultFrame(MODE_SERVER, 0.0, 0.0).(orgTimestamp := 100.0, rcvTimestamp := 105.0, xmtTimestamp := 105.0);
    var copy := Receipt(reply, NtpToSystemTime(102.0));
    var sends := [Send(NtpToSystemTime(100.0), 1), Send(NtpToSystemTime(103.0), 1)];
    var inbox := [copy, copy];
    var c0 := Seeded();
    assert Await(c0, inbox, 0, 1) == Accepted(copy, 1);
    var c1 := Accept(c0, copy, 100.0);
    assert c1.orgs == [0.0, 105.0] && c1.samples == [Sample(4000.0, 2000.0)];
    assert Request(c0, sends[0].clock).xmtTimestamp == 100.0;
    assert !Duplicate(c1, reply);
    assert Await(c1, inbox, 1, 1) == Accepted(copy, 2);
    var c2 := Accept(c1, copy, 103.0);
    assert c2.samples == [Sample(4000.0, 2000.0), Sample(4000.0, 2000.0)];
    assert Run(2, c0, sends, 0, inbox, 0, []) == Run(2, c1, sends, 1, inbox, 1, [Request(c0, sends[0].clock)]);
  }
}
