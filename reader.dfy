/**
 * The multi-slave register reader of the gateway (read_slave_data and read_registers in
 * gatewayEMS/src/modbus/read.py): Read Holding Registers (function code 0x03) and Read Input
 * Registers (0x04), sections 6.3 and 6.4 of the Modbus Application Protocol Specification
 * V1.1b3. The client's answer to each request is given as a function.
 */
module RegisterReader {
  import opened Wrappers

  datatype Table = HoldingRegisters | InputRegisters

  /** A read sent to the client. */
  datatype Request = Request(table: Table, slave: int, address: int, count: int)

  /** What the client produced for a request. */
  datatype Response = Registers(values: seq<int>) | ErrorResponse | Failed

  /** The registers read, if any, and the request issued, if any. */
  datatype SubRead = SubRead(result: Option<seq<int>>, request: Option<Request>)

  predicate ValidFunctionCode(functionCode: int) {
    functionCode == 3 || functionCode == 4
  }

  /**
   * `read_slave_data`: nothing is sent when the client is not connected or the function
   * code is neither 3 nor 4; code 3 reads holding registers and code 4 input registers; an
   * error response or a raised read yields None, a successful one its registers.
   */
  function ReadSlaveData(connected: bool, respond: Request -> Response, slave: int, address: int, count: int, functionCode: int)
    : (r: SubRead)
    ensures r.request.Some? <==> connected && ValidFunctionCode(functionCode)
    ensures r.request.Some? ==> r.request.value == Request(if functionCode == 3 then HoldingRegisters else InputRegisters, slave, address, count)
    ensures r.request.None? ==> r.result.None?
    ensures r.request.Some? ==> (r.result.Some? <==> respond(r.request.value).Registers?)
    ensures r.result.Some? ==> r.result.value == respond(r.request.value).values
  {
    if !connected || !ValidFunctionCode(functionCode) then SubRead(None, None)
    else
      var request := Request(if functionCode == 3 then HoldingRegisters else InputRegisters, slave, address, count);
      match respond(request)
      case Registers(values) => SubRead(Some(values), Some(request))
      case _ => SubRead(None, Some(request))
  }

  /** An argument given either as one integer or as a list. */
  datatype IntOrList = Scalar(n: int) | List(items: seq<int>)

  function Repeat(n: int, k: nat): (r: seq<int>)
    ensures |r| == k && forall i :: 0 <= i < k ==> r[i] == n
  {
    seq(k, _ => n)
  }

  function Zip(address: seq<int>, count: seq<int>): (r: seq<(int, int)>)
    requires |address| == |count|
    ensures |r| == |address| && forall i :: 0 <= i < |r| ==> r[i] == (address[i], count[i])
  {
    seq(|address|, i requires 0 <= i < |address| => (address[i], count[i]))
  }

  function AsList(slave: IntOrList): (r: seq<int>)
    ensures slave.Scalar? ==> r == [slave.n]
    ensures slave.List? ==> r == slave.items
  {
    if slave.Scalar? then [slave.n] else slave.items
  }

  /** The (address, count) pair every request of a batch reads, `n` times over. */
  function Copies(address: int, count: int, n: nat): (r: seq<(int, int)>)
    ensures |r| == n && forall i :: 0 <= i < n ==> r[i] == (address, count)
  {
    seq(n, _ => (address, count))
  }

  /**
   * The argument normalisation as written: a scalar address or count is repeated to the
   * length of the slave list, and every slave then reads every (address, count) pair.
   * None stands for the ValueError on a length mismatch.
   */
  function BroadcastAsWritten(slave: IntOrList, address: IntOrList, count: IntOrList): (r: Option<(seq<int>, seq<(int, int)>)>)
    ensures r.Some? ==> r.value.0 == AsList(slave)
    ensures address.Scalar? && count.Scalar? ==> r == Some((AsList(slave), Copies(address.n, count.n, |AsList(slave)|)))
    ensures address.List? && count.List? ==> (r.Some? <==> |address.items| == |count.items|)
  {
    var slaves := AsList(slave);
    var addresses := if address.Scalar? then Repeat(address.n, |slaves|) else address.items;
    var counts := if count.Scalar? then Repeat(count.n, |slaves|) else count.items;
    if |addresses| == |counts| then
      var pairs := Zip(addresses, counts);
      assert address.Scalar? && count.Scalar? ==> pairs == Copies(address.n, count.n, |slaves|);
      Some((slaves, pairs))
    else None
  }

  /**
   * The normalisation the reader uses: a scalar address with a scalar count is one range that
   * each slave reads once; every other combination is normalised as written (a scalar is
   * repeated to the number of slaves, and the two lists must then have the same length).
   */
  function Broadcast(slave: IntOrList, address: IntOrList, count: IntOrList): (r: Option<(seq<int>, seq<(int, int)>)>)
    ensures r.Some? ==> r.value.0 == AsList(slave)
    ensures address.Scalar? && count.Scalar? ==> r == Some((AsList(slave), [(address.n, count.n)]))
    ensures !(address.Scalar? && count.Scalar?) ==> r == BroadcastAsWritten(slave, address, count)
    ensures address.List? && count.List? ==> (r.Some? <==> |address.items| == |count.items|)
    ensures address.List? && count.List? && r.Some? ==> r.value.1 == Zip(address.items, count.items)
    ensures address.Scalar? && count.List? ==>
      (r.Some? <==> |count.items| == |AsList(slave)|)
      && (r.Some? ==> r.value.1 == Zip(Repeat(address.n, |AsList(slave)|), count.items))
    ensures address.List? && count.Scalar? ==>
      (r.Some? <==> |address.items| == |AsList(slave)|)
      && (r.Some? ==> r.value.1 == Zip(address.items, Repeat(count.n, |AsList(slave)|)))
  {
    if address.Scalar? && count.Scalar? then Some((AsList(slave), [(address.n, count.n)]))
    else BroadcastAsWritten(slave, address, count)
  }

  /**
   * A scalar with a list is left as written: one slave with the address 100 and the counts
   * [2, 3] repeats 100 once, and the lengths 1 and 2 make the call fail.
   */
  lemma MixedScalarKeptAsWritten()
    ensures Broadcast(List([1]), Scalar(100), List([2, 3])).None?
  {
    assert Repeat(100, |AsList(List([1]))|) == [100];
  }

  /** The sub-reads of one slave over the pairs, in request order, on a connected client. */
  function SubReads(respond: Request -> Response, functionCode: int, slave: int, pairs: seq<(int, int)>): (r: seq<SubRead>)
    ensures |r| == |pairs|
    ensures forall k :: 0 <= k < |pairs| ==> r[k] == ReadSlaveData(true, respond, slave, pairs[k].0, pairs[k].1, functionCode)
  {
    seq(|pairs|, k requires 0 <= k < |pairs| => ReadSlaveData(true, respond, slave, pairs[k].0, pairs[k].1, functionCode))
  }

  /** The registers of the successful sub-reads, concatenated in order (`if sublist for item in sublist`). */
  function Flatten(subs: seq<SubRead>): seq<int>
    decreases |subs|
  {
    if subs == [] then []
    else
      var n := |subs| - 1;
      Flatten(subs[..n]) + (if subs[n].result.Some? then subs[n].result.value else [])
  }

  /** The requests a run of sub-reads sent, in order. */
  function Sent(subs: seq<SubRead>): seq<Request>
    decreases |subs|
  {
    if subs == [] then []
    else
      var n := |subs| - 1;
      Sent(subs[..n]) + (if subs[n].request.Some? then [subs[n].request.value] else [])
  }

  lemma {:induction false} FlattenAppend(a: seq<SubRead>, b: seq<SubRead>)
    ensures Flatten(a + b) == Flatten(a) + Flatten(b)
    decreases |b|
  {
    if b != [] {
      var n := |b| - 1;
      assert (a + b)[..|a + b| - 1] == a + b[..n];
      assert (a + b)[|a + b| - 1] == b[n];
      FlattenAppend(a, b[..n]);
      var last := if b[n].result.Some? then b[n].result.value else [];
      calc {
        Flatten(a + b);
        Flatten(a + b[..n]) + last;
        Flatten(a) + Flatten(b[..n]) + last;
        Flatten(a) + (Flatten(b[..n]) + last);
        Flatten(a) + Flatten(b);
      }
    } else {
      assert a + b == a;
    }
  }

  /** A slave all of whose sub-reads fail maps to an empty list, not to a missing entry. */
  lemma {:induction false} AllFailedIsEmpty(subs: seq<SubRead>)
    requires forall k :: 0 <= k < |subs| ==> subs[k].result.None?
    ensures Flatten(subs) == []
    decreases |subs|
  {
    if subs != [] {
      AllFailedIsEmpty(subs[..|subs| - 1]);
    }
  }

  /** A failed sub-read contributes nothing and leaves the others in place, in order. */
  lemma FailedSubReadIsSkipped(a: seq<SubRead>, failed: SubRead, b: seq<SubRead>)
    requires failed.result.None?
    ensures Flatten(a + [failed] + b) == Flatten(a) + Flatten(b)
  {
    FlattenAppend(a + [failed], b);
    FlattenAppend(a, [failed]);
    assert Flatten([failed]) == Flatten([failed][..0]) + [];
    assert [failed][..0] == [];
  }

  /** One slave's entry of the result. */
  function SlaveEntry(respond: Request -> Response, functionCode: int, slave: int, pairs: seq<(int, int)>): seq<int> {
    Flatten(SubReads(respond, functionCode, slave, pairs))
  }

  /** The requests one batch sends: each slave in list order, each pair in order. */
  function BatchRequests(respond: Request -> Response, functionCode: int, slaves: seq<int>, pairs: seq<(int, int)>): seq<Request>
    decreases |slaves|
  {
    if slaves == [] then []
    else
      var n := |slaves| - 1;
      BatchRequests(respond, functionCode, slaves[..n], pairs) + Sent(SubReads(respond, functionCode, slaves[n], pairs))
  }

  /** The result of a batch: one entry per distinct slave. */
  function BatchResult(respond: Request -> Response, functionCode: int, slaves: seq<int>, pairs: seq<(int, int)>): (r: map<int, seq<int>>)
    ensures r.Keys == set s | s in slaves
    ensures forall s :: s in r ==> r[s] == SlaveEntry(respond, functionCode, s, pairs)
  {
    map s | s in slaves :: SlaveEntry(respond, functionCode, s, pairs)
  }

  lemma BatchResultStep(respond: Request -> Response, functionCode: int, slaves: seq<int>, pairs: seq<(int, int)>, i: nat)
    requires i < |slaves|
    ensures BatchResult(respond, functionCode, slaves[..i + 1], pairs)
      == BatchResult(respond, functionCode, slaves[..i], pairs)[slaves[i] := SlaveEntry(respond, functionCode, slaves[i], pairs)]
  {
    assert slaves[..i + 1] == slaves[..i] + [slaves[i]];
  }

  /** A function code other than 3 and 4 sends nothing, and every slave maps to []. */
  lemma {:induction false} InvalidCodeSendsNothing(respond: Request -> Response, functionCode: int, slaves: seq<int>, pairs: seq<(int, int)>)
    requires !ValidFunctionCode(functionCode)
    ensures BatchRequests(respond, functionCode, slaves, pairs) == []
    ensures forall s :: s in slaves ==> BatchResult(respond, functionCode, slaves, pairs)[s] == []
    decreases |slaves|
  {
    if slaves != [] {
      InvalidCodeSendsNothing(respond, functionCode, slaves[..|slaves| - 1], pairs);
      SentNothing(SubReads(respond, functionCode, slaves[|slaves| - 1], pairs));
    }
    forall s | s in slaves
      ensures SlaveEntry(respond, functionCode, s, pairs) == []
    {
      AllFailedIsEmpty(SubReads(respond, functionCode, s, pairs));
    }
  }

  lemma {:induction false} SentNothing(subs: seq<SubRead>)
    requires forall k :: 0 <= k < |subs| ==> subs[k].request.None?
    ensures Sent(subs) == []
    decreases |subs|
  {
    if subs != [] {
      SentNothing(subs[..|subs| - 1]);
    }
  }

  /**
   * The normalisation as written reads each range once per slave in the list: with two
   * slaves, address 100 and count 2, and a device answering every read with two registers,
   * each slave's entry holds four values. The normalisation the reader uses gives two.
   */
  lemma BroadcastDuplicatesReads()
    ensures var respond := (_: Request) => Registers([7, 8]);
      var asWritten := BroadcastAsWritten(List([1, 2]), Scalar(100), Scalar(2)).value;
      var corrected := Broadcast(List([1, 2]), Scalar(100), Scalar(2)).value;
      SlaveEntry(respond, 3, 1, asWritten.1) == [7, 8, 7, 8]
      && SlaveEntry(respond, 3, 1, corrected.1) == [7, 8]
  {
    var respond := (_: Request) => Registers([7, 8]);
    var one := SubReads(respond, 3, 1, [(100, 2)]);
    assert one[0] == SubRead(Some([7, 8]), Some(Request(HoldingRegisters, 1, 100, 2)));
    assert one[..0] == [];
    assert Flatten(one) == [7, 8];
    var twice := SubReads(respond, 3, 1, Copies(100, 2, 2));
    assert twice[..1] == one;
    assert twice[1] == one[0];
    assert Flatten(twice) == [7, 8, 7, 8];
    assert BroadcastAsWritten(List([1, 2]), Scalar(100), Scalar(2)).value.1 == Copies(100, 2, 2);
  }

  /** With scalar address and count, each slave's entry is exactly its single read's registers. */
  lemma ScalarsReadOnce(respond: Request -> Response, functionCode: int, slave: IntOrList, address: int, count: int, s: int)
    requires ValidFunctionCode(functionCode)
    ensures var pairs := Broadcast(slave, Scalar(address), Scalar(count)).value.1;
      var request := Request(if functionCode == 3 then HoldingRegisters else InputRegisters, s, address, count);
      SlaveEntry(respond, functionCode, s, pairs) == (if respond(request).Registers? then respond(request).values else [])
  {
    var pairs := Broadcast(slave, Scalar(address), Scalar(count)).value.1;
    assert pairs == [(address, count)];
    var subs := SubReads(respond, functionCode, s, pairs);
    assert subs[..0] == [];
    assert subs[0] == ReadSlaveData(true, respond, s, address, count, functionCode);
    assert Flatten(subs) == Flatten(subs[..0]) + (if subs[0].result.Some? then subs[0].result.value else []);
  }

  /** Why a batch failed (ConnectionError or ValueError), or the per-slave registers. */
  datatype BatchOutcome = Read(values: map<int, seq<int>>) | ConnectionError | ValidationError

  /** The client as the reader sees it: its connection flag and what was done with it. */
  class ModbusClient {
    var connected: bool
    var connectCalls: nat
    var closeCalls: nat
    /** Every request sent, oldest first. */
    var sent: seq<Request>

    constructor (connected: bool)
      ensures this.connected == connected && connectCalls == 0 && closeCalls == 0 && sent == []
    {
      this.connected := connected;
      connectCalls := 0;
      closeCalls := 0;
      sent := [];
    }

    /** `await client.connect()`, whose success is given. */
    method Connect(succeeds: bool)
      modifies this
      ensures connected == succeeds && connectCalls == old(connectCalls) + 1
      ensures closeCalls == old(closeCalls) && sent == old(sent)
    {
      connected := succeeds;
      connectCalls := connectCalls + 1;
    }

    /** `client.close()`. */
    method Close()
      modifies this
      ensures !connected && closeCalls == old(closeCalls) + 1
      ensures connectCalls == old(connectCalls) && sent == old(sent)
    {
      connected := false;
      closeCalls := closeCalls + 1;
    }

    /** `read_slave_data` on this client. */
    method ReadSlaveOnce(respond: Request -> Response, slave: int, address: int, count: int, functionCode: int)
      returns (registers: Option<seq<int>>)
      modifies this
      ensures var r := ReadSlaveData(old(connected), respond, slave, address, count, functionCode);
        registers == r.result && sent == old(sent) + (if r.request.Some? then [r.request.value] else [])
      ensures connected == old(connected) && connectCalls == old(connectCalls) && closeCalls == old(closeCalls)
    {
      var r := ReadSlaveData(connected, respond, slave, address, count, functionCode);
      if r.request.Some? {
        sent := sent + [r.request.value];
      }
      registers := r.result;
    }

    /**
     * The gathered sub-reads of one slave in `read_registers`: every pair in order, the
     * successful ones concatenated.
     */
    method ReadSlave(respond: Request -> Response, s: int, pairs: seq<(int, int)>, functionCode: int)
      returns (entry: seq<int>)
      requires connected
      modifies this
      ensures entry == SlaveEntry(respond, functionCode, s, pairs)
      ensures sent == old(sent) + Sent(SubReads(respond, functionCode, s, pairs))
      ensures connected && connectCalls == old(connectCalls) && closeCalls == old(closeCalls)
    {
      entry := [];
      var j := 0;
      while j < |pairs|
        invariant 0 <= j <= |pairs|
        invariant connected && connectCalls == old(connectCalls) && closeCalls == old(closeCalls)
        invariant entry == Flatten(SubReads(respond, functionCode, s, pairs[..j]))
        invariant sent == old(sent) + Sent(SubReads(respond, functionCode, s, pairs[..j]))
      {
        var registers := ReadSlaveOnce(respond, s, pairs[j].0, pairs[j].1, functionCode);
        assert SubReads(respond, functionCode, s, pairs[..j + 1])[..j] == SubReads(respond, functionCode, s, pairs[..j]);
        if registers.Some? {
          entry := entry + registers.value;
        }
        j := j + 1;
      }
      assert pairs[..j] == pairs;
    }

    /** The batch of `read_registers` on a connected client: every slave reads every pair. */
    method ReadBatch(respond: Request -> Response, slaves: seq<int>, pairs: seq<(int, int)>, functionCode: int)
      returns (results: map<int, seq<int>>)
      requires connected
      modifies this
      ensures results == BatchResult(respond, functionCode, slaves, pairs)
      ensures sent == old(sent) + BatchRequests(respond, functionCode, slaves, pairs)
      ensures connected && connectCalls == old(connectCalls) && closeCalls == old(closeCalls)
    {
      results := map[];
      var i := 0;
      while i < |slaves|
        invariant 0 <= i <= |slaves|
        invariant connected && connectCalls == old(connectCalls) && closeCalls == old(closeCalls)
        invariant results == BatchResult(respond, functionCode, slaves[..i], pairs)
        invariant sent == old(sent) + BatchRequests(respond, functionCode, slaves[..i], pairs)
      {
        var s := slaves[i];
        var entry := ReadSlave(respond, s, pairs, functionCode);
        assert slaves[..i + 1][..i] == slaves[..i];
        BatchResultStep(respond, functionCode, slaves, pairs, i);
        results := results[s := entry];
        i := i + 1;
      }
      assert slaves[..i] == slaves;
    }

    /**
     * `read_registers`: at most one reconnect, ConnectionError if still disconnected,
     * ValidationError before any read on mismatched lists, otherwise every slave reads every
     * pair and the client is closed after the batch.
     */
    method ReadRegisters(slave: IntOrList, address: IntOrList, count: IntOrList, functionCode: int,
                         reconnects: bool, respond: Request -> Response)
      returns (outcome: BatchOutcome)
      modifies this
      ensures connectCalls == old(connectCalls) + (if old(connected) then 0 else 1)
      ensures (old(connected) || reconnects) <==> !outcome.ConnectionError?
      ensures outcome.ValidationError? <==> (old(connected) || reconnects) && Broadcast(slave, address, count).None?
      ensures !outcome.Read? ==> sent == old(sent) && closeCalls == old(closeCalls)
      ensures outcome.Read? ==>
        var normal := Broadcast(slave, address, count).value;
        outcome.values == BatchResult(respond, functionCode, normal.0, normal.1)
        && sent == old(sent) + BatchRequests(respond, functionCode, normal.0, normal.1)
        && closeCalls == old(closeCalls) + 1 && !connected
    {
      if !connected {
        Connect(reconnects);
      }
      if !connected {
        return ConnectionError;
      }
      var normal := Broadcast(slave, address, count);
      if normal.None? {
        return ValidationError;
      }
      var results := ReadBatch(respond, normal.value.0, normal.value.1, functionCode);
      Close();
      outcome := Read(results);
    }
  }
}
