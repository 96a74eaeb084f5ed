/**
 * The `Dashboard`: its construction (`NewDashboard`), the per-tick sampler (`UpdateData`)
 * and the timer handler of `main`. Widgets are kept only as the values they display.
 */
module Dashboards {
  import opened Wrappers
  import opened Snmp
  import opened Resolver
  import opened Counters
  import opened Utilization

  /** The answer to the batched Get of sysName.0, ifAlias.<index> and ifHighSpeed.<index>. */
  datatype Metadata = Metadata(sysName: string, ifAlias: string, ifHighSpeed: int)

  /** The resolved interface: what the "Interface" panel shows and the fields the sampler needs. */
  datatype Interface = Interface(ifName: string, ifIndex: int, sysName: string, ifAlias: string, ifSpeed: int)

  /**
   * The decisions of `NewDashboard`: resolve the token, then ask for the metadata of the
   * resolved index. A failure of either step is returned as is and no interface results.
   * `meta` is the agent's answer to the metadata request for the index that resolution gave.
   */
  function Setup(token: string, lookup: Reply<string>, walk: Reply<seq<IfNameRow>>, meta: Reply<Metadata>)
    : (r: Result<Interface, Error>)
    ensures r.Success? ==>
              && ParseIfName(token, lookup, walk) == Success(Resolved(r.value.ifName, r.value.ifIndex))
              && meta.Response? && meta.errorStatus == NoError
              && meta.varBinds == Metadata(r.value.sysName, r.value.ifAlias, r.value.ifSpeed)
  {
    match ParseIfName(token, lookup, walk)
    case Failure(e) => Failure(e)
    case Success(resolved) =>
      match Check(meta)
      case Failure(e) => Failure(e)
      case Success(m) => Success(Interface(resolved.ifName, resolved.ifIndex, m.sysName, m.ifAlias, m.ifHighSpeed))
  }

  /**
   * Setup succeeds exactly when resolution and the metadata request both succeed; its index
   * and name are the resolved ones and its speed is the agent's ifHighSpeed. A resolution
   * error is returned unchanged, and so is a metadata error once resolution succeeded.
   */
  lemma SetupGating(token: string, lookup: Reply<string>, walk: Reply<seq<IfNameRow>>, meta: Reply<Metadata>)
    ensures var r := Setup(token, lookup, walk, meta);
            var p := ParseIfName(token, lookup, walk);
            && (r.Success? <==> p.Success? && meta.Response? && meta.errorStatus == NoError)
            && (p.Failure? ==> r == Failure(p.error))
            && (p.Success? && meta.TransportError? ==> r == Failure(Transport(meta.message)))
            && (p.Success? && meta.Response? && meta.errorStatus != NoError ==>
                  r == Failure(Status(meta.errorStatus, meta.errorIndex)))
            && (r.Success? ==>
                  && r.value.ifIndex == p.value.ifIndex && r.value.ifName == p.value.ifName
                  && r.value.ifSpeed == meta.varBinds.ifHighSpeed
                  && r.value.sysName == meta.varBinds.sysName && r.value.ifAlias == meta.varBinds.ifAlias)
  {
  }

  class Dashboard {
    /**
     * The resolved interface (the "Interface" panel); never changes after construction.
     * Its `ifIndex` is the index every counter request is made for and its `ifSpeed` the
     * link speed in Mbps the rates are relative to.
     */
    const header: Interface

    /** The previous sample, absent until the first successful request. */
    var ifStats: Option<IfStats>
    /** The deltas the "Raw Data" panel shows, absent until the first successful request. */
    var rawData: Option<IfStats>
    /** The tick count the elapsed-time line shows, absent until the first tick. */
    var elapsed: Option<int>
    /** `ChartRx.Data["rate"]` and `ChartTx.Data["rate"]`: they only ever grow. */
    var rxRates: seq<real>
    var txRates: seq<real>

    /** Every sample committed so far, in order. */
    ghost var history: seq<Sample>

    ghost predicate Valid()
      reads this`ifStats, this`rawData, this`rxRates, this`txRates, this`history
    {
      && |rxRates| == |txRates| == |history|
      && ifStats == Previous(history)
      && (history == [] ==> rawData == None)
      && (history != [] ==>
            && header.ifSpeed > 0 && PositiveIntervals(history)
            && rxRates == Series(history, header.ifSpeed, Rx)
            && txRates == Series(history, header.ifSpeed, Tx)
            && var earlier := history[..|history| - 1];
               rawData == Some(Delta(Previous(earlier), history[|history| - 1].stats)))
    }

    constructor (id: Interface)
      ensures Valid()
      ensures header == id
      ensures ifStats == None && rawData == None && elapsed == None
      ensures rxRates == [] && txRates == [] && history == []
    {
      header := id;
      ifStats, rawData, elapsed := None, None, None;
      rxRates, txRates := [], [];
      history := [];
    }

    /**
     * `UpdateData(t)`, given the agent's answer to the request for the six counters of
     * `header.ifIndex`. A failed request changes nothing. A successful one computes the deltas
     * against the previous sample, stores the new sample as the previous one, and appends
     * one Rx and one Tx rate.
     */
    method UpdateData(t: int, reply: Reply<IfStats>) returns (err: Option<Error>)
      requires Valid() && t > 0 && header.ifSpeed > 0
      modifies this
      ensures Valid()
      ensures err.Some? <==> Check(reply).Failure?
      ensures err.Some? ==> err.value == Check(reply).error
      ensures err.Some? ==> unchanged(this)
      ensures err.None? ==>
                var current := reply.varBinds;
                var delta := Delta(old(ifStats), current);
                && ifStats == Some(current)
                && rawData == Some(delta)
                && rxRates == old(rxRates) + [Rate(delta.hcInOctets, header.ifSpeed, t)]
                && txRates == old(txRates) + [Rate(delta.hcOutOctets, header.ifSpeed, t)]
                && history == old(history) + [Sample(current, t)]
                && elapsed == old(elapsed)
    {
      var checked := Check(reply);
      if checked.Failure? {
        return Some(checked.error);
      }
      var stats := checked.value;
      var delta := Delta(ifStats, stats);
      ifStats := Some(stats);
      rawData := Some(delta);
      rxRates := rxRates + [Rate(delta.hcInOctets, header.ifSpeed, t)];
      txRates := txRates + [Rate(delta.hcOutOctets, header.ifSpeed, t)];
      history := history + [Sample(stats, t)];
      assert history[..|history| - 1] == old(history);
      err := None;
    }

    /**
     * The timer handler of `main` for tick `c`: on every `interval`-th tick it calls
     * `UpdateData(interval)` (whose error it ignores); on every tick it updates the
     * elapsed-time line.
     */
    method OnTimer(c: int, interval: int, reply: Reply<IfStats>)
      requires Valid() && c >= 0 && interval > 0 && header.ifSpeed > 0
      modifies this
      ensures Valid()
      ensures elapsed == Some(c)
      ensures !ShouldRefresh(c, interval) || Check(reply).Failure? ==>
                && ifStats == old(ifStats) && rawData == old(rawData) && history == old(history)
                && rxRates == old(rxRates) && txRates == old(txRates)
      ensures ShouldRefresh(c, interval) && Check(reply).Success? ==>
                var delta := Delta(old(ifStats), reply.varBinds);
                && ifStats == Some(reply.varBinds) && rawData == Some(delta)
                && history == old(history) + [Sample(reply.varBinds, interval)]
                && rxRates == old(rxRates) + [Rate(delta.hcInOctets, header.ifSpeed, interval)]
                && txRates == old(txRates) + [Rate(delta.hcOutOctets, header.ifSpeed, interval)]
    {
      // Go refreshes first and then writes the time line; the two touch disjoint fields.
      elapsed := Some(c);
      if ShouldRefresh(c, interval) {
        var _ := UpdateData(interval, reply);
      }
    }
  }

  /**
   * `NewDashboard`: a dashboard exists only when resolution and the metadata request both
   * succeeded; otherwise the error is returned and no dashboard, index or speed is set.
   */
  method NewDashboard(token: string, lookup: Reply<string>, walk: Reply<seq<IfNameRow>>, meta: Reply<Metadata>)
    returns (r: Result<Dashboard, Error>)
    ensures r.Failure? <==> Setup(token, lookup, walk, meta).Failure?
    ensures r.Failure? ==> r.error == Setup(token, lookup, walk, meta).error
    ensures r.Success? ==>
              var d := r.value;
              && fresh(d) && d.Valid()
              && d.header == Setup(token, lookup, walk, meta).value
              && d.ifStats == None && d.rawData == None && d.elapsed == None
              && d.rxRates == [] && d.txRates == []
  {
    var setup := Setup(token, lookup, walk, meta);
    if setup.Failure? {
      return Failure(setup.error);
    }
    var d := new Dashboard(setup.value);
    r := Success(d);
  }

  /**
   * A refresh that fails between two successful ones: the failure keeps the first sample as the
   * baseline, so the next success reports its deltas against that sample, and the charts hold
   * exactly one rate per successful refresh.
   */
  method FailedRefreshKeepsBaseline(id: Interface, first: IfStats, second: IfStats, status: nat)
    requires id.ifSpeed > 0 && status != NoError
  {
    var d := new Dashboard(id);
    var ok1 := d.UpdateData(1, Response(NoError, 0, first));
    assert ok1.None? && d.ifStats == Some(first) && d.rxRates == [Rate(0, id.ifSpeed, 1)];
    var failed := d.UpdateData(1, Response(status, 1, second));
    assert failed == Some(Status(status, 1)) && d.ifStats == Some(first) && |d.rxRates| == 1;
    var ok2 := d.UpdateData(1, Response(NoError, 0, second));
    assert ok2.None? && d.rawData == Some(Delta(Some(first), second));
    assert d.rxRates == [Rate(0, id.ifSpeed, 1), Rate(second.hcInOctets - first.hcInOctets, id.ifSpeed, 1)];
  }
}
