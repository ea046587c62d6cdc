/**
 * Time-tick synchronisation bookkeeping of the root coordinator
 * (internal/rootcoord/timeticksync.go): the set of in-flight DDL timestamps
 * with its cached minimum, and the per-proxy table of latest time ticks that
 * is emitted as one snapshot, and reset, once every proxy has reported.
 */
module RootCoord {
  import opened Wrappers
  import opened Sets

  const MaxUint64: int := 0xFFFF_FFFF_FFFF_FFFF

  /** A hybrid timestamp, an unsigned 64-bit integer. */
  type Timestamp = t: int | 0 <= t <= MaxUint64

  type UniqueID = int

  /** A time-tick report from a proxy, or from the coordinator itself. */
  datatype ChannelTimeTickMsg = ChannelTimeTickMsg(
    sourceID: UniqueID,
    channelNames: seq<string>,
    timestamps: seq<Timestamp>,
    defaultTimestamp: Timestamp)

  /** A source's recorded tick: per-channel timestamps, a default, and the report count. */
  datatype ChanTsMsg = ChanTsMsg(chanTs: map<string, Timestamp>, defaultTs: Timestamp, cnt: int)

  datatype TickError = InvalidTimeTickMsg | UnrecognizedProxy(sourceID: UniqueID)

  // ---------------------------------------------------------------------------
  // chanTsMsg
  // ---------------------------------------------------------------------------

  /** The map filled by assigning `names[i] := tss[i]` for i in increasing order. */
  function ZipChannels(names: seq<string>, tss: seq<Timestamp>): (m: map<string, Timestamp>)
    requires |names| <= |tss|
    ensures m.Keys == set i | 0 <= i < |names| :: names[i]
  {
    if names == [] then map[]
    else ZipChannels(names[..|names| - 1], tss)[names[|names| - 1] := tss[|names| - 1]]
  }

  /** A channel named several times keeps the timestamp of its last occurrence. */
  lemma {:induction false} ZipChannelsLast(names: seq<string>, tss: seq<Timestamp>, i: nat)
    requires |names| <= |tss| && i < |names|
    requires forall j :: i < j < |names| ==> names[j] != names[i]
    ensures names[i] in ZipChannels(names, tss) && ZipChannels(names, tss)[names[i]] == tss[i]
  {
    var n := |names| - 1;
    if i < n {
      var init := names[..n];
      assert forall j :: i < j < |init| ==> init[j] == names[j];
      ZipChannelsLast(init, tss, i);
    }
  }

  function NewChanTsMsg(tick: ChannelTimeTickMsg, cnt: int): ChanTsMsg
    requires |tick.channelNames| <= |tick.timestamps|
  {
    ChanTsMsg(ZipChannels(tick.channelNames, tick.timestamps), tick.defaultTimestamp, cnt)
  }

  /** The tick of a channel: its own timestamp if listed, the default otherwise. */
  function GetTimetick(msg: ChanTsMsg, channelName: string): Timestamp
  {
    if channelName in msg.chanTs then msg.chanTs[channelName] else msg.defaultTs
  }

  /** A recorded message answers the default timestamp for a channel it does not list. */
  lemma GetTimetickUnlisted(tick: ChannelTimeTickMsg, cnt: int, channelName: string)
    requires |tick.channelNames| <= |tick.timestamps|
    requires channelName !in tick.channelNames
    ensures GetTimetick(NewChanTsMsg(tick, cnt), channelName) == tick.defaultTimestamp
    ensures NewChanTsMsg(tick, cnt).cnt == cnt
  {
  }

  /** A recorded message answers a listed channel with the timestamp at its last position. */
  lemma GetTimetickListed(tick: ChannelTimeTickMsg, cnt: int, i: nat)
    requires |tick.channelNames| <= |tick.timestamps| && i < |tick.channelNames|
    requires forall j :: i < j < |tick.channelNames| ==> tick.channelNames[j] != tick.channelNames[i]
    ensures GetTimetick(NewChanTsMsg(tick, cnt), tick.channelNames[i]) == tick.timestamps[i]
  {
    ZipChannelsLast(tick.channelNames, tick.timestamps, i);
  }

  // ---------------------------------------------------------------------------
  // minTimeTick and the per-channel reduction of a snapshot
  // ---------------------------------------------------------------------------

  /**
   * `minTimeTick`: a left fold in which a running value of 0 is replaced by
   * the next element, and otherwise the smaller of the two is kept.
   */
  function MinTimeTick(tt: seq<Timestamp>): Timestamp
  {
    if tt == [] then 0
    else
      var ret := MinTimeTick(tt[..|tt| - 1]);
      var t := tt[|tt| - 1];
      if ret == 0 then t else if t < ret then t else ret
  }

  /** On non-zero timestamps MinTimeTick is their minimum. */
  lemma {:induction false} MinTimeTickIsMin(tt: seq<Timestamp>)
    requires tt != [] && forall i :: 0 <= i < |tt| ==> tt[i] != 0
    ensures MinTimeTick(tt) in tt
    ensures forall i :: 0 <= i < |tt| ==> MinTimeTick(tt) <= tt[i]
  {
    var init := tt[..|tt| - 1];
    if init != [] {
      MinTimeTickIsMin(init);
    }
  }

  /** A zero restarts the fold: only the timestamps after the last zero matter. */
  lemma {:induction false} MinTimeTickAfterLastZero(tt: seq<Timestamp>, z: nat)
    requires z < |tt| && tt[z] == 0
    requires forall i :: z < i < |tt| ==> tt[i] != 0
    ensures MinTimeTick(tt) == MinTimeTick(tt[z + 1..])
  {
    var n := |tt| - 1;
    if z < n {
      var init := tt[..n];
      MinTimeTickAfterLastZero(init, z);
      assert tt[z + 1..][..|tt[z + 1..]| - 1] == init[z + 1..];
    }
  }

  /** With a zero in the middle, MinTimeTick is neither the minimum nor the least non-zero value. */
  lemma MinTimeTickZeroInMiddle()
    ensures MinTimeTick([5, 0, 7]) == 7
  {
    MinTimeTickAfterLastZero([5, 0, 7], 1);
    assert [5, 0, 7][2..] == [7];
    assert [7][..0] == [];
  }

  /**
   * The reduction `startWatch` runs for one channel of a snapshot: the least of
   * the local tick `ts` and every source's tick for that channel.
   */
  method ChannelMin(snapshot: map<UniqueID, ChanTsMsg>, channelName: string, ts: Timestamp) returns (mints: Timestamp)
    ensures mints <= ts
    ensures forall id :: id in snapshot ==> mints <= GetTimetick(snapshot[id], channelName)
    ensures mints == ts || exists id :: id in snapshot && mints == GetTimetick(snapshot[id], channelName)
  {
    mints := ts;
    var rest := snapshot.Keys;
    while rest != {}
      invariant rest <= snapshot.Keys
      invariant mints <= ts
      invariant forall id :: id in snapshot && id !in rest ==> mints <= GetTimetick(snapshot[id], channelName)
      invariant mints == ts || exists id :: id in snapshot && mints == GetTimetick(snapshot[id], channelName)
      decreases rest
    {
      ghost var w := SomeElement(rest);
      var id :| id in rest;
      var currTs := GetTimetick(snapshot[id], channelName);
      if currTs < mints {
        mints := currTs;
      }
      rest := rest - {id};
    }
  }

  // ---------------------------------------------------------------------------
  // The DDL in-flight set and the proxy table
  // ---------------------------------------------------------------------------

  /** `m` is the least element of `s`, or MaxUint64 when `s` is empty. */
  predicate IsDdlMin(s: set<Timestamp>, m: Timestamp)
  {
    && (s == {} ==> m == MaxUint64)
    && (s != {} ==> m in s && forall t :: t in s ==> m <= t)
  }

  /** The cached minimum is determined by the set. */
  lemma DdlMinUnique(s: set<Timestamp>, m1: Timestamp, m2: Timestamp)
    requires IsDdlMin(s, m1) && IsDdlMin(s, m2)
    ensures m1 == m2
  {
  }

  /** Per source: None for a registered source that has not reported since the last snapshot. */
  type ProxyTable = map<UniqueID, Option<ChanTsMsg>>

  /** Every registered source has reported. */
  predicate AllReported(table: ProxyTable)
  {
    table != map[] && forall id :: id in table ==> table[id].Some?
  }

  function Snapshot(table: ProxyTable): map<UniqueID, ChanTsMsg>
    requires AllReported(table)
  {
    map id | id in table :: table[id].value
  }

  /** The table with every source registered and idle. */
  function Idle(table: ProxyTable): ProxyTable
  {
    map id | id in table :: None
  }

  /** The table after `sendToChannel`. */
  function Flushed(table: ProxyTable): ProxyTable
  {
    if AllReported(table) then Idle(table) else table
  }

  /** What `sendToChannel` puts on the outgoing channel. */
  function Emitted(table: ProxyTable): seq<map<UniqueID, ChanTsMsg>>
  {
    if AllReported(table) then [Snapshot(table)] else []
  }

  /** A flush keeps the registered sources, and emits every source's recorded tick. */
  lemma FlushKeepsSources(table: ProxyTable)
    ensures Flushed(table).Keys == table.Keys
    ensures |Emitted(table)| <= 1
    ensures Emitted(table) != [] <==> AllReported(table)
    ensures AllReported(table) ==>
      && Emitted(table)[0].Keys == table.Keys
      && forall id :: id in table ==> table[id] == Some(Emitted(table)[0][id])
  {
  }

  /** After a flush some registered source is idle again, so a snapshot needs a new round of reports. */
  lemma FlushStartsNewRound(table: ProxyTable)
    ensures !AllReported(Flushed(table))
  {
    if AllReported(table) {
      var id := SomeElement(table.Keys);
      assert Flushed(table)[id] == None;
    }
  }

  /** How `updateTimeTick` treats a report. */
  datatype Verdict = Ignore | Reject(error: TickError) | Accept(entry: ChanTsMsg)

  /** The checks of `updateTimeTick`, in the order the source makes them. */
  function UpdateVerdict(table: ProxyTable, ddlMinTs: Timestamp, selfID: UniqueID, tick: ChannelTimeTickMsg): Verdict
  {
    if |tick.channelNames| == 0 && tick.defaultTimestamp == 0 then Ignore
    else if |tick.timestamps| != |tick.channelNames| then Reject(InvalidTimeTickMsg)
    else if tick.sourceID !in table then Reject(UnrecognizedProxy(tick.sourceID))
    else
      var prev := table[tick.sourceID];
      if tick.defaultTimestamp > ddlMinTs then Ignore
      else if tick.sourceID == selfID && prev.Some? && tick.defaultTimestamp <= prev.value.defaultTs then Ignore
      else Accept(NewChanTsMsg(tick, if prev.None? then 1 else prev.value.cnt + 1))
  }

  /** An empty report is ignored; a malformed one and one from an unregistered source are rejected. */
  lemma UpdateVerdictRejects(table: ProxyTable, ddlMinTs: Timestamp, selfID: UniqueID, tick: ChannelTimeTickMsg)
    ensures |tick.channelNames| == 0 && tick.defaultTimestamp == 0 ==> UpdateVerdict(table, ddlMinTs, selfID, tick) == Ignore
    ensures !(|tick.channelNames| == 0 && tick.defaultTimestamp == 0) && |tick.timestamps| != |tick.channelNames| ==>
      UpdateVerdict(table, ddlMinTs, selfID, tick) == Reject(InvalidTimeTickMsg)
    ensures (!(|tick.channelNames| == 0 && tick.defaultTimestamp == 0) && |tick.timestamps| == |tick.channelNames| &&
      tick.sourceID !in table) ==> UpdateVerdict(table, ddlMinTs, selfID, tick) == Reject(UnrecognizedProxy(tick.sourceID))
  {
  }

  /**
   * An accepted report comes from a registered source, is well formed, does
   * not pass an in-flight DDL, and is recorded with the report count raised by one.
   */
  lemma AcceptedReport(table: ProxyTable, ddlMinTs: Timestamp, selfID: UniqueID, tick: ChannelTimeTickMsg)
    requires UpdateVerdict(table, ddlMinTs, selfID, tick).Accept?
    ensures tick.sourceID in table && |tick.timestamps| == |tick.channelNames|
    ensures tick.defaultTimestamp <= ddlMinTs
    ensures var e := UpdateVerdict(table, ddlMinTs, selfID, tick).entry;
      && e.defaultTs == tick.defaultTimestamp
      && e.chanTs.Keys == (set i | 0 <= i < |tick.channelNames| :: tick.channelNames[i])
      && e.cnt == (if table[tick.sourceID].None? then 1 else table[tick.sourceID].value.cnt + 1)
  {
  }

  /** The coordinator's own ticks strictly increase within a round. */
  lemma SelfTicksAdvance(table: ProxyTable, ddlMinTs: Timestamp, selfID: UniqueID, tick: ChannelTimeTickMsg)
    requires UpdateVerdict(table, ddlMinTs, selfID, tick).Accept?
    requires tick.sourceID == selfID && table[selfID].Some?
    ensures UpdateVerdict(table, ddlMinTs, selfID, tick).entry.defaultTs > table[selfID].value.defaultTs
  {
  }

  /** The coordinator's time-tick synchroniser, without its message streams. */
  class TimetickSync {
    const sourceID: UniqueID
    var proxyTimeTick: ProxyTable
    /** The snapshots sent so far on `sendChan`, oldest first. */
    var sendChan: seq<map<UniqueID, ChanTsMsg>>
    var ddlMinTs: Timestamp
    var ddlTsSet: set<Timestamp>

    ghost predicate Valid()
      reads this
    {
      IsDdlMin(ddlTsSet, ddlMinTs)
    }

    constructor (sourceID: UniqueID)
      ensures Valid()
      ensures this.sourceID == sourceID
      ensures proxyTimeTick == map[] && sendChan == []
      ensures ddlTsSet == {} && ddlMinTs == MaxUint64
    {
      this.sourceID := sourceID;
      proxyTimeTick := map[];
      sendChan := [];
      ddlMinTs := MaxUint64;
      ddlTsSet := {};
    }

    /** Emits a snapshot and resets every entry once all registered sources have reported. */
    method SendToChannel()
      modifies this`proxyTimeTick, this`sendChan
      ensures proxyTimeTick == Flushed(old(proxyTimeTick))
      ensures sendChan == old(sendChan) + Emitted(old(proxyTimeTick))
    {
      if |proxyTimeTick| == 0 {
        assert proxyTimeTick == map[];
        return;
      }
      var idleProxyList := set id | id in proxyTimeTick && proxyTimeTick[id].None?;
      if idleProxyList != {} {
        ghost var idle := SomeElement(idleProxyList);
        assert !AllReported(proxyTimeTick);
        return;
      }
      assert forall id :: id in proxyTimeTick ==> id !in idleProxyList;
      var ptt: map<UniqueID, ChanTsMsg> := map[];
      var rest := proxyTimeTick.Keys;
      while rest != {}
        invariant rest <= proxyTimeTick.Keys == old(proxyTimeTick).Keys
        invariant sendChan == old(sendChan)
        invariant forall id :: id in old(proxyTimeTick) ==> old(proxyTimeTick)[id].Some?
        invariant forall id :: id in rest ==> proxyTimeTick[id] == old(proxyTimeTick)[id]
        invariant forall id :: id in proxyTimeTick && id !in rest ==> proxyTimeTick[id] == None
        invariant ptt == map id | id in old(proxyTimeTick) && id !in rest :: old(proxyTimeTick)[id].value
        decreases rest
      {
        ghost var w := SomeElement(rest);
        var id :| id in rest;
        ptt := ptt[id := proxyTimeTick[id].value];
        proxyTimeTick := proxyTimeTick[id := None];
        rest := rest - {id};
      }
      assert AllReported(old(proxyTimeTick));
      assert Idle(old(proxyTimeTick)).Keys == proxyTimeTick.Keys;
      assert forall id :: id in proxyTimeTick ==> id !in rest;
      assert forall id :: id in proxyTimeTick ==> proxyTimeTick[id] == None;
      assert proxyTimeTick == Idle(old(proxyTimeTick));
      assert ptt == Snapshot(old(proxyTimeTick));
      sendChan := sendChan + [ptt];
    }

    /** Records a DDL timestamp as in flight. */
    method AddDdlTimeTick(ts: Timestamp)
      requires Valid()
      modifies this`ddlMinTs, this`ddlTsSet
      ensures Valid()
      ensures ddlTsSet == old(ddlTsSet) + {ts}
      ensures ddlMinTs == if ts < old(ddlMinTs) then ts else old(ddlMinTs)
    {
      if ts < ddlMinTs {
        ddlMinTs := ts;
      }
      ddlTsSet := ddlTsSet + {ts};
    }

    /** Marks a DDL timestamp finished, recomputing the minimum when it was the minimum. */
    method RemoveDdlTimeTick(ts: Timestamp)
      requires Valid()
      modifies this`ddlMinTs, this`ddlTsSet
      ensures Valid()
      ensures ddlTsSet == old(ddlTsSet) - {ts}
      ensures ddlTsSet != {} && old(ddlMinTs) != ts ==> ddlMinTs == old(ddlMinTs)
    {
      var remaining := ddlTsSet - {ts};
      ddlTsSet := remaining;
      if remaining == {} {
        ddlMinTs := MaxUint64;
      } else if ddlMinTs == ts {
        var minTs: Timestamp := MaxUint64;
        var rest := remaining;
        while rest != {}
          invariant rest <= remaining
          invariant ddlTsSet == remaining && ddlMinTs == ts
          invariant forall t :: t in remaining && t !in rest ==> minTs <= t
          invariant minTs == MaxUint64 || (minTs in remaining && minTs !in rest)
          decreases rest
        {
          ghost var w := SomeElement(rest);
          var tt :| tt in rest;
          if tt < minTs {
            minTs := tt;
          }
          rest := rest - {tt};
        }
        var some := SomeElement(remaining);
        assert minTs <= some;
        ddlMinTs := minTs;
      }
    }

    /** The least in-flight DDL timestamp, or MaxUint64 when none is in flight. */
    method GetDdlMinTimeTick() returns (ts: Timestamp)
      requires Valid()
      ensures ddlTsSet == {} ==> ts == MaxUint64
      ensures ddlTsSet != {} ==> ts in ddlTsSet && forall t :: t in ddlTsSet ==> ts <= t
    {
      ts := ddlMinTs;
    }

    /** Validates a report, records it for its source and flushes the table if the round is complete. */
    method UpdateTimeTick(tick: ChannelTimeTickMsg) returns (err: Option<TickError>)
      requires Valid()
      modifies this`proxyTimeTick, this`sendChan
      ensures Valid()
      ensures var v := UpdateVerdict(old(proxyTimeTick), ddlMinTs, sourceID, tick);
        && err == (if v.Reject? then Some(v.error) else None)
        && (v.Accept? ==>
              var table := old(proxyTimeTick)[tick.sourceID := Some(v.entry)];
              proxyTimeTick == Flushed(table) && sendChan == old(sendChan) + Emitted(table))
        && (!v.Accept? ==> proxyTimeTick == old(proxyTimeTick) && sendChan == old(sendChan))
    {
      if |tick.channelNames| == 0 && tick.defaultTimestamp == 0 {
        return None;
      }
      if |tick.timestamps| != |tick.channelNames| {
        return Some(InvalidTimeTickMsg);
      }
      if tick.sourceID !in proxyTimeTick {
        return Some(UnrecognizedProxy(tick.sourceID));
      }
      var prev := proxyTimeTick[tick.sourceID];
      var ddlMin := GetDdlMinTimeTick();
      if tick.defaultTimestamp > ddlMin {
        return None;
      }
      if tick.sourceID == sourceID {
        if prev.Some? && tick.defaultTimestamp <= prev.value.defaultTs {
          return None;
        }
      }
      if prev.None? {
        proxyTimeTick := proxyTimeTick[tick.sourceID := Some(NewChanTsMsg(tick, 1))];
      } else {
        proxyTimeTick := proxyTimeTick[tick.sourceID := Some(NewChanTsMsg(tick, prev.value.cnt + 1))];
      }
      SendToChannel();
      return None;
    }

    /** Registers a proxy as idle. */
    method AddProxy(serverID: UniqueID)
      modifies this`proxyTimeTick
      ensures proxyTimeTick == old(proxyTimeTick)[serverID := None]
    {
      proxyTimeTick := proxyTimeTick[serverID := None];
    }

    /** Unregisters a proxy; its absence may complete the current round. */
    method DelProxy(serverID: UniqueID)
      modifies this`proxyTimeTick, this`sendChan
      ensures serverID in old(proxyTimeTick) ==>
        proxyTimeTick == Flushed(old(proxyTimeTick) - {serverID}) &&
        sendChan == old(sendChan) + Emitted(old(proxyTimeTick) - {serverID})
      ensures serverID !in old(proxyTimeTick) ==>
        proxyTimeTick == old(proxyTimeTick) && sendChan == old(sendChan)
    {
      if serverID in proxyTimeTick {
        proxyTimeTick := proxyTimeTick - {serverID};
        SendToChannel();
      }
    }

    /** Registers every given proxy as idle. */
    method ClearProxy(serverIDs: seq<UniqueID>)
      modifies this`proxyTimeTick
      ensures proxyTimeTick.Keys == old(proxyTimeTick).Keys + (set i | 0 <= i < |serverIDs| :: serverIDs[i])
      ensures forall i :: 0 <= i < |serverIDs| ==> proxyTimeTick[serverIDs[i]] == None
      ensures forall id :: id in old(proxyTimeTick) && id !in serverIDs ==> proxyTimeTick[id] == old(proxyTimeTick)[id]
    {
      for i := 0 to |serverIDs|
        invariant proxyTimeTick.Keys == old(proxyTimeTick).Keys + (set j | 0 <= j < i :: serverIDs[j])
        invariant forall j :: 0 <= j < i ==> proxyTimeTick[serverIDs[j]] == None
        invariant forall id :: id in old(proxyTimeTick) && id !in serverIDs[..i] ==> proxyTimeTick[id] == old(proxyTimeTick)[id]
      {
        proxyTimeTick := proxyTimeTick[serverIDs[i] := None];
      }
    }

    /** The number of registered proxies. */
    method GetProxyNum() returns (n: nat)
      ensures n == |proxyTimeTick.Keys|
    {
      n := |proxyTimeTick|;
    }
  }
}
