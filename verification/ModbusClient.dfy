/** The object of a unit, src/evok/modbus/client.py: its methods are proved against the functions of ClientChanges. */
module ModbusClients {
  import opened Common
  import opened RegisterGroups
  import opened RegisterCaches
  import opened ClientChanges
  import opened Bits
  import BitWrites

  class Client {
    const cache: ModbusCacheMap
    const periodicScan: bool
    var written: Option<set<Register>>
    var changing: bool
    ghost var log: seq<Entry>

    ghost function View(): Unit
      reads this`written, this`log, cache, cache.groups, cache.igroups
    {
      Unit(cache.View(), written, log)
    }

    constructor (cache: ModbusCacheMap, periodicScan: bool)
      ensures this.cache == cache && this.periodicScan == periodicScan && written == None && !changing && log == []
    {
      this.cache, this.periodicScan := cache, periodicScan;
      written, changing, log := None, false, [];
    }

    /** The cache after a write: the words if they are cached, and their pins. */
    method StoreWritten(index: nat, words: seq<Word>, cached: bool, pinned: bool, now: Time)
      requires cache.Valid()
      modifies cache.groups
      ensures cache.Valid()
      ensures cache.View() == Written(old(cache.View()), index, words, cached, pinned, now)
    {
      WrittenStaysSound(cache.View(), index, words, cached, pinned, now);
      if cached {
        cache.DoSetRegister(index, words, false, false, now);
      }
      if pinned {
        cache.DoPin(index, words, now + REREAD_DELAY, false);
      } else {
        cache.DoUnpin(index, |words|, false);
      }
    }

    /** write_registers() after its request succeeded. */
    method NoteWrite(index: nat, words: seq<Word>, cached: bool, pinned: bool, now: Time)
      requires cache.Valid()
      modifies this`written, this`log, cache.groups
      ensures cache.Valid()
      ensures View() == Do(old(View()), periodicScan, WriteRegisters(index, words, cached, pinned, true, now))
    {
      StoreWritten(index, words, cached, pinned && periodicScan, now);
      Note(index, |words|);
    }

    method Note(index: nat, n: nat)
      modifies this`written, this`log
      ensures written == if old(written).Some? then Some(old(written).value + Addresses(index, n)) else None
      ensures log == old(log) + Wrotes(index, n)
    {
      if written.Some? {
        written := Some(written.value + Addresses(index, n));
      }
      log := log + Wrotes(index, n);
    }

    method ClearPins()
      requires cache.Valid()
      modifies cache.groups, cache.igroups
      ensures cache.Valid()
      ensures cache.View() == old(cache.View()).(groups := ClearAllPins(old(cache.View()).groups),
                              igroups := ClearAllPins(old(cache.View()).igroups))
    {
      cache.DoClearPins();
    }

    /** write_coil_without_response() after the unit restarted. */
    method NoteRestart(answer: Answer)
      requires cache.Valid() && !answer.Failed?
      modifies this`written, this`log, cache.groups, cache.igroups
      ensures cache.Valid()
      ensures View() == Do(old(View()), periodicScan, WriteWithoutResponse(answer))
    {
      ghost var u := View();
      written := None;
      ClearPins();
      log := log + [Restarted];
      assert View() == Do(u, periodicScan, WriteWithoutResponse(answer));
    }

    /** One write of the operation; false is its error. */
    method OperateOne(op: Op) returns (ok: bool)
      requires cache.Valid()
      modifies this`written, this`log, cache.groups, cache.igroups
      ensures cache.Valid()
      ensures View() == Do(old(View()), periodicScan, op)
      ensures ok == Succeeds(op)
    {
      match op
      case WriteRegisters(index, words, cached, pinned, sent, now) =>
        if sent {
          NoteWrite(index, words, cached, pinned, now);
        }
        return sent;
      case SetCached(index, words) =>
        cache.DoSetRegister(index, words, false, false, 0);
        return true;
      case WriteWithoutResponse(answer) =>
        if !answer.Failed? {
          NoteRestart(answer);
        }
        return !answer.Failed?;
      case WriteCoil(sent) =>
        return sent;
      case Refuse =>
        return false;
    }

    /** The operation of a change; false is its error. */
    method Operate(ops: seq<Op>) returns (ok: bool)
      requires cache.Valid()
      modifies this`written, this`log, cache.groups, cache.igroups
      ensures cache.Valid()
      ensures View() == Perform(old(View()), periodicScan, ops)
      ensures ok == forall op :: op in ops ==> Succeeds(op)
    {
      var i := 0;
      assert ops[0..] == ops;
      while i < |ops|
        invariant i <= |ops| && cache.Valid()
        invariant Perform(old(View()), periodicScan, ops) == Perform(View(), periodicScan, ops[i..])
        invariant forall op :: op in ops[..i] ==> Succeeds(op)
      {
        assert ops[i..][0] == ops[i] && ops[i..][1..] == ops[i + 1..] && ops[..i + 1] == ops[..i] + [ops[i]];
        ok := OperateOne(ops[i]);
        if !ok {
          return false;
        }
        i := i + 1;
      }
      assert ops[..i] == ops;
      return true;
    }

    method RenewWritten(end: Time)
      requires cache.Valid()
      modifies cache.groups, cache.igroups
      ensures cache.Valid()
      ensures View() == old(View()).(cache := Renewed(old(View()), end))
    {
      RenewedStaysSound(View(), end);
      if written.Some? && written.value != {} {
        cache.DoRenewPins(written.value, end + REREAD_DELAY);
      }
    }

    /** The read of the blocks, all of them or the ones of the registers. */
    method ReadBlocks(registers: Option<set<Register>>, r: Replies) returns (ok: bool)
      requires cache.Valid() && |r.holding| == |cache.groups| && |r.input| == |cache.igroups|
      modifies this`log, cache`failed, cache`lastComm, cache.groups, cache.igroups
      ensures cache.Valid()
      ensures var w := if registers.None? then All else AfterChange(old(View()).cache, registers.value);
              View() == Unit(ReadGroups(old(View()).cache, w, r.holding, r.input, r.end), old(written),
                             old(log) + ReadLog(old(View()).cache, w, r))
      ensures ok == !cache.failed
    {
      ghost var w := if registers.None? then All else AfterChange(View().cache, registers.value);
      log := log + ReadLog(View().cache, w, r);
      if registers.None? {
        ok := cache.DoReadGroups(All, r.holding, r.input, r.end);
      } else {
        ok := cache.DoReadChanged(registers.value, r.holding, r.input, r.end);
      }
    }

    /** The `finally` of _change(). */
    method FinishChange(read: bool, devices: set<Register>, end: Time, r: Replies)
      requires cache.Valid() && |r.holding| == |cache.groups| && |r.input| == |cache.igroups|
      modifies this`written, this`log, cache`failed, cache`lastComm, cache.groups, cache.igroups
      ensures cache.Valid()
      ensures View() == Finish(old(View()), read, devices, end, r)
    {
      RenewedStaysSound(View(), end);
      RenewWritten(end);
      var noted := written;
      written := None;
      assert View() == Unit(Renewed(old(View()), end), None, old(log));
      if read {
        var _ := ReadBlocks(if noted.None? then None else Some(noted.value + devices), r);
      }
    }

    /** The start of _change(): false is UnitUnavailable. */
    method IsAvailable(checkAvailable: bool, first: Replies) returns (ok: bool)
      requires cache.Valid() && |first.holding| == |cache.groups| && |first.input| == |cache.igroups|
      modifies this`log, cache`failed, cache`lastComm, cache.groups, cache.igroups
      ensures cache.Valid()
      ensures View() == Seen(old(View()), periodicScan, checkAvailable, first)
      ensures ok == !(checkAvailable && cache.failed)
    {
      if checkAvailable && cache.failed && !periodicScan {
        var _ := ReadBlocks(None, first);
      }
      return !(checkAvailable && cache.failed);
    }

    method Run(read: bool, devices: Option<set<Register>>, ops: seq<Op>, end: Time, last: Replies) returns (ok: bool)
      requires cache.Valid() && |last.holding| == |cache.groups| && |last.input| == |cache.igroups|
      modifies this`written, this`log, cache`failed, cache`lastComm, cache.groups, cache.igroups
      ensures cache.Valid()
      ensures View() ==
              Finish(Perform(Start(old(View()), devices), periodicScan, ops), read, DevicesOf(devices), end, last)
      ensures ok == forall op :: op in ops ==> Succeeds(op)
    {
      written := if devices.None? then None else Some({});
      ok := Operate(ops);
      FinishChange(read, if devices.None? then {} else devices.value, end, last);
    }

    method DoChange(checkAvailable: bool, read: bool, devices: Option<set<Register>>, ops: seq<Op>,
                    first: Replies, end: Time, last: Replies) returns (outcome: Outcome)
      requires cache.Valid()
      requires |first.holding| == |cache.groups| && |first.input| == |cache.igroups|
      requires |last.holding| == |cache.groups| && |last.input| == |cache.igroups|
      modifies this, cache`failed, cache`lastComm, cache.groups, cache.igroups
      ensures (View(), outcome) ==
              Change(old(View()), periodicScan, checkAvailable, read, devices, ops, first, end, last)
      ensures !changing
    {
      changing := true;
      outcome := ChangeUnit(checkAvailable, read, devices, ops, first, end, last);
      changing := false;
    }

    /** _change() */
    method ChangeUnit(checkAvailable: bool, read: bool, devices: Option<set<Register>>, ops: seq<Op>,
                      first: Replies, end: Time, last: Replies) returns (outcome: Outcome)
      requires cache.Valid()
      requires |first.holding| == |cache.groups| && |first.input| == |cache.igroups|
      requires |last.holding| == |cache.groups| && |last.input| == |cache.igroups|
      modifies this`written, this`log, cache`failed, cache`lastComm, cache.groups, cache.igroups
      ensures (View(), outcome) ==
              Change(old(View()), periodicScan, checkAvailable, read, devices, ops, first, end, last)
    {
      var available := IsAvailable(checkAvailable, first);
      if !available {
        return UnitUnavailable;
      }
      var ok := Run(read, devices, ops, end, last);
      outcome := if ok then Done else OperationFailed;
    }

    /** write_raw() of a bit: reads the register from the unit and returns the word it sends. */
    method ReadForBit(op: BitOp, index: nat, reply: Word, now: Time) returns (w: Word)
      requires cache.Valid() && cache.View().Valid()
      modifies cache.groups
      ensures cache.Valid()
      ensures w == BitWrites.BitWord(old(cache.View()), op, index, reply, now)
    {
      ghost var c := cache.View();
      BitWrites.BitWordOfRegister(c, op, index, reply, now);
      var l := ReadAsync(index, reply, now);
      w := Apply(op, BitWrites.WordOf(l, reply));
    }

    /** get_register_async() of one holding register. */
    method ReadAsync(index: nat, reply: Word, now: Time) returns (l: Lookup)
      requires cache.Valid() && SoundGroups(SetRegister(cache.View().groups, index, [reply], true, now))
      modifies cache.groups
      ensures cache.Valid()
      ensures cache.View().groups == SetRegister(old(cache.View()).groups, index, [reply], true, now)
      ensures l == GetRegister(cache.View().groups, index, 1)
    {
      cache.DoSetRegister(index, [reply], false, true, now);
      l := cache.DoGetRegister(index, 1, false);
    }
  }
}
