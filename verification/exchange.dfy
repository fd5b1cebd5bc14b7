/**
 * The on-wire offset and delay of one request/reply exchange (section 8 of
 * RFC 5905), and the client's duplicate-reply guard.
 */
module Exchange {
  import opened Packet

  /**
   * Clock offset: the server clock minus the client clock, assuming symmetric
   * paths. Together with the delay it splits into the two one-way differences:
   * half the delay added gives the outbound T2 - T1, half subtracted the return T3 - T4.
   */
  function Offset(t1: real, t2: real, t3: real, t4: real): (theta: real)
    ensures theta + Delay(t1, t2, t3, t4) / 2.0 == t2 - t1
    ensures theta - Delay(t1, t2, t3, t4) / 2.0 == t3 - t4
  {
    ((t2 - t1) + (t3 - t4)) / 2.0
  }

  /**
   * Round-trip delay: the time the request was out, minus the server's
   * processing time. It is the sum of the two legs, the outbound difference
   * less the return difference, in which any clock offset cancels.
   */
  function Delay(t1: real, t2: real, t3: real, t4: real): (delta: real)
    ensures delta == (t2 - t1) - (t3 - t4)
  {
    (t4 - t1) - (t3 - t2)
  }

  /** The pair the client stores for one accepted reply, both in milliseconds. */
  datatype Sample = Sample(offsetMs: real, delayMs: real)

  /**
   * One stored measurement, `(oi * 1000, di * 1000)`. The two numbers determine
   * the two one-way differences: half the delay added to the offset gives the
   * outbound difference T2 - T1, half subtracted gives the return difference T3 - T4.
   */
  function Measure(t1: real, t2: real, t3: real, t4: real): (s: Sample)
    ensures s.offsetMs + s.delayMs / 2.0 == 1000.0 * (t2 - t1)
    ensures s.offsetMs - s.delayMs / 2.0 == 1000.0 * (t3 - t4)
  {
    Sample(Offset(t1, t2, t3, t4) * 1000.0, Delay(t1, t2, t3, t4) * 1000.0)
  }

  /**
   * When the server clock runs `theta` ahead of the client's and both legs take
   * `d`, the formulas recover `theta` and `2 d` whatever the processing time `p`.
   */
  lemma SymmetricPathRecovered(t1: real, theta: real, d: real, p: real)
    ensures var t2 := t1 + d + theta;
            var t3 := t2 + p;
            var t4 := t3 + d - theta;
            Offset(t1, t2, t3, t4) == theta && Delay(t1, t2, t3, t4) == 2.0 * d
  {
  }

  /** Server 5 s ahead, 2 s round trip, no processing time: (4000, 2000) is stored. */
  lemma MeasureExample()
    ensures Measure(100.0, 105.0, 105.0, 102.0) == Sample(4000.0, 2000.0)
  {
  }

  /**
   * is_duplicate: the reply's origin, receive and transmit timestamps are each
   * found in the list kept for that field. Each test is on its own list; the
   * three need not come from one earlier exchange.
   */
  predicate IsDuplicate(reply: Frame<real>, orgs: seq<real>, rcvs: seq<real>, xmts: seq<real>): (duplicate: bool)
    ensures duplicate <==>
      && (exists i :: 0 <= i < |orgs| && orgs[i] == reply.orgTimestamp)
      && (exists j :: 0 <= j < |rcvs| && rcvs[j] == reply.rcvTimestamp)
      && (exists k :: 0 <= k < |xmts| && xmts[k] == reply.xmtTimestamp)
  {
    if reply.orgTimestamp in orgs then
      if reply.rcvTimestamp in rcvs then
        reply.xmtTimestamp in xmts
      else false
    else false
  }

  /** With no transmit timestamps recorded yet, nothing is a duplicate. */
  lemma NothingDuplicatesAnEmptyHistory(reply: Frame<real>, orgs: seq<real>, rcvs: seq<real>)
    ensures !IsDuplicate(reply, orgs, rcvs, [])
  {
  }

  /** A reply can be flagged although no single earlier index holds all three of its timestamps. */
  lemma DuplicateNeedNotMatchOneExchange()
    ensures var reply := DefaultFrame(MODE_SERVER, 0.0, 0.0).(orgTimestamp := 1.0, rcvTimestamp := 2.0, xmtTimestamp := 3.0);
            var orgs, rcvs, xmts := [1.0, 7.0], [8.0, 2.0], [3.0];
            && IsDuplicate(reply, orgs, rcvs, xmts)
            && forall i :: 0 <= i < |xmts| ==> !(orgs[i] == 1.0 && rcvs[i] == 2.0 && xmts[i] == 3.0)
  {
    var orgs, rcvs := [1.0, 7.0], [8.0, 2.0];
    assert orgs[0] == 1.0 && rcvs[1] == 2.0;
  }
}
