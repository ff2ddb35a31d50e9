/** The battery defender (health/BatteryDefender.cpp): a state machine with accumulated timers and
    rate-limited persistence. Properties, sysfs reads and the clock are inputs of each update. */
module BatteryDefender {

  const WRITE_DELAY_SECS := 120

  datatype State = Init | Disabled | Disconnected | Connected | Active

  /** What one update reads: the boot clock, power presence, the battery level, and the properties. */
  datatype Input = Input(
    time: int, disabled: bool, power: bool, level: int, triggerLevel: int,
    timeToActivate: int, timeToClear: int, clearRequested: bool, writeOk: bool)

  /** The member variables of the process. `presentSaved` and `activeSaved` are the last values handed
      to the files, -1 before the first. */
  datatype Memory = Memory(
    state: State, present: int, notPresent: int, activeTime: int, reachedHigh: bool,
    presentSaved: int, activeSaved: int, timePrevious: int)

  /** The two persisted files; they survive a restart of the process. */
  datatype Disk = Disk(present: int, activeTime: int)

  datatype Device = Device(mem: Memory, disk: Disk)

  function Fresh(disk: Disk, time: int): Device {
    Device(Memory(Init, 0, 0, 0, false, -1, -1, time), disk)
  }

  // ---------- One update ----------

  function Cleared(m: Memory): Memory {
    m.(reachedHigh := false, activeTime := 0, notPresent := 0, present := 0)
  }

  function Accounted(m: Memory, i: Input): Memory {
    var delta := i.time - m.timePrevious;
    if i.power then m.(present := if m.reachedHigh then m.present + delta else m.present, notPresent := 0)
    else m.(notPresent := m.notPresent + delta)
  }

  function RunAction(m: Memory, disk: Disk, i: Input): Memory {
    match m.state
    case Init => if i.power then m.(present := disk.present, activeTime := disk.activeTime) else m
    case Disabled => Cleared(m)
    case Disconnected => Cleared(m)
    case Connected =>
      var a := Accounted(m, i);
      if i.level >= i.triggerLevel then a.(reachedHigh := true) else a
    case Active =>
      var a := Accounted(m, i);
      a.(activeTime := a.activeTime + (i.time - m.timePrevious))
  }

  function NextState(m: Memory, i: Input): State {
    if i.disabled then Disabled
    else
      match m.state
      case Init =>
        if !i.power then Disconnected else if m.present > i.timeToActivate then Active else Connected
      case Disabled => Disconnected
      case Disconnected => if i.power then Connected else Disconnected
      case _ =>
        if i.clearRequested || (m.notPresent >= i.timeToClear && !i.power) then Disconnected
        else if m.present > i.timeToActivate then Active
        else m.state
  }

  function FirstAction(m: Memory, next: State): Memory {
    match next
    case Disabled => Cleared(m)
    case Disconnected => Cleared(m)
    case Connected => if m.present > 0 then m.(reachedHigh := true) else m
    case Active => m.(reachedHigh := true)
    case Init => m
  }

  function Settled(m: Memory, disk: Disk, i: Input): Memory {
    var run := RunAction(m, disk, i);
    var next := NextState(run, i);
    (if next != m.state then FirstAction(run, next) else run).(state := next, timePrevious := i.time)
  }

  predicate Significant(value: int, saved: int) {
    value == 0 || saved == -1 || value > saved + WRITE_DELAY_SECS || value < saved - WRITE_DELAY_SECS
  }

  /** The file and the remembered value after writeTimeToFile; a failed write is remembered all the same. */
  function WriteTime(file: int, value: int, saved: int, ok: bool): (int, int) {
    if value != saved && Significant(value, saved) then (if ok then value else file, value) else (file, saved)
  }

  function Updated(d: Device, i: Input): Device {
    var m := Settled(d.mem, d.disk, i);
    var (file, saved) := WriteTime(d.disk.present, m.present, m.presentSaved, i.writeOk);
    var (activeFile, activeSaved) := WriteTime(d.disk.activeTime, m.activeTime, m.activeSaved, i.writeOk);
    Device(m.(presentSaved := saved, activeSaved := activeSaved), Disk(file, activeFile))
  }

  lemma ActionKeepsState(m: Memory, disk: Disk, i: Input)
    ensures RunAction(m, disk, i).state == m.state
  {
  }

  /** The files under /mnt/vendor/persist/battery. */
  class Storage {
    var chargerPresentTime: int
    var defenderActiveTime: int

    function Value(): Disk
      reads this
    {
      Disk(chargerPresentTime, defenderActiveTime)
    }
  }

  class Defender {
    const storage: Storage
    var currentState: State
    var timeChargerPresentSecs: int
    var timeChargerNotPresentSecs: int
    var timeActiveSecs: int
    var hasReachedHighCapacityLevel: bool
    var timeChargerPresentSecsPrevious: int
    var timeActiveSecsPrevious: int
    var timePreviousSecs: int

    function Value(): Memory
      reads this
    {
      Memory(currentState, timeChargerPresentSecs, timeChargerNotPresentSecs, timeActiveSecs,
             hasReachedHighCapacityLevel, timeChargerPresentSecsPrevious, timeActiveSecsPrevious, timePreviousSecs)
    }

    constructor (storage: Storage, time: int)
      ensures this.storage == storage
      ensures Device(Value(), storage.Value()) == Fresh(storage.Value(), time)
    {
      this.storage := storage;
      currentState, hasReachedHighCapacityLevel := Init, false;
      timeChargerPresentSecs, timeChargerNotPresentSecs, timeActiveSecs := 0, 0, 0;
      timeChargerPresentSecsPrevious, timeActiveSecsPrevious, timePreviousSecs := -1, -1, time;
    }

    method ClearStateData()
      modifies this
      ensures Value() == Cleared(old(Value()))
    {
      hasReachedHighCapacityLevel := false;
      timeActiveSecs, timeChargerNotPresentSecs, timeChargerPresentSecs := 0, 0, 0;
    }

    method AddTimeToChargeTimers(i: Input)
      modifies this
      ensures Value() == Accounted(old(Value()), i)
    {
      var delta := i.time - timePreviousSecs;
      if i.power {
        if hasReachedHighCapacityLevel {
          timeChargerPresentSecs := timeChargerPresentSecs + delta;
        }
        timeChargerNotPresentSecs := 0;
      } else {
        timeChargerNotPresentSecs := timeChargerNotPresentSecs + delta;
      }
    }

    method StateMachineRunAction(i: Input)
      modifies this
      ensures Value() == RunAction(old(Value()), storage.Value(), i)
    {
      match currentState {
        case Init =>
          if i.power {
            timeChargerPresentSecs := storage.chargerPresentTime;
            timeActiveSecs := storage.defenderActiveTime;
          }
        case Disabled => ClearStateData();
        case Disconnected => ClearStateData();
        case Connected =>
          AddTimeToChargeTimers(i);
          if i.level >= i.triggerLevel {
            hasReachedHighCapacityLevel := true;
          }
        case Active =>
          AddTimeToChargeTimers(i);
          timeActiveSecs := timeActiveSecs + (i.time - timePreviousSecs);
      }
    }

    /** CONNECTED falls through to the checks of ACTIVE, which override its own choice. */
    method StateMachineGetNextState(i: Input) returns (next: State)
      ensures next == NextState(Value(), i)
    {
      next := currentState;
      if i.disabled {
        return Disabled;
      }
      match currentState {
        case Init =>
          if i.power {
            next := if timeChargerPresentSecs > i.timeToActivate then Active else Connected;
          } else {
            next := Disconnected;
          }
        case Disabled => next := Disconnected;
        case Disconnected =>
          if i.power {
            next := Connected;
          }
        case _ =>
          if currentState == Connected && timeChargerPresentSecs > i.timeToActivate {
            next := Active;
          }
          if i.clearRequested {
            next := Disconnected;
          }
          if timeChargerNotPresentSecs >= i.timeToClear && !i.power {
            next := Disconnected;
          }
      }
    }

    method StateMachineFirstAction(next: State)
      modifies this
      ensures Value() == FirstAction(old(Value()), next)
    {
      match next {
        case Disabled => ClearStateData();
        case Disconnected => ClearStateData();
        case Connected =>
          if timeChargerPresentSecs > 0 {
            hasReachedHighCapacityLevel := true;
          }
        case Active => hasReachedHighCapacityLevel := true;
        case Init =>
      }
    }

    method Update(i: Input)
      modifies this, storage
      ensures Device(Value(), storage.Value()) == Updated(old(Device(Value(), storage.Value())), i)
    {
      hide NextState, WriteTime, RunAction, FirstAction;
      ActionKeepsState(Value(), storage.Value(), i);
      StateMachineRunAction(i);
      var next := StateMachineGetNextState(i);
      if next != currentState {
        StateMachineFirstAction(next);
      }
      currentState, timePreviousSecs := next, i.time;
      storage.chargerPresentTime, timeChargerPresentSecsPrevious :=
        WriteTimeToFile(storage.chargerPresentTime, timeChargerPresentSecs, timeChargerPresentSecsPrevious, i.writeOk);
      storage.defenderActiveTime, timeActiveSecsPrevious :=
        WriteTimeToFile(storage.defenderActiveTime, timeActiveSecs, timeActiveSecsPrevious, i.writeOk);
    }
  }

  method WriteTimeToFile(file: int, value: int, previous: int, ok: bool) returns (newFile: int, newPrevious: int)
    ensures (newFile, newPrevious) == WriteTime(file, value, previous, ok)
    ensures ok && (previous == -1 || previous == file) && value >= 0 ==>
              && newFile == newPrevious && value - WRITE_DELAY_SECS <= newFile <= value + WRITE_DELAY_SECS
              && (value == 0 ==> newFile == 0)
    ensures newFile != file || newPrevious != previous ==>
              && newPrevious == value && (ok ==> newFile == value) && (!ok ==> newFile == file)
              && (value == 0 || previous == -1 || value > previous + 120 || value < previous - 120)
  {
    newFile, newPrevious := file, previous;
    var hasTimeChangedSignificantly :=
      value == 0 || previous == -1 || value > previous + WRITE_DELAY_SECS || value < previous - WRITE_DELAY_SECS;
    if value != previous && hasTimeChangedSignificantly {
      if ok {
        newFile := value;
      }
      newPrevious := value;
    }
  }
}
