/** The three-state gate of `src/adapters/audio_device_gate.cpp`. The functions are its calls on what it
    holds; the class is the object that makes them. */
module AudioDeviceGate {

  datatype State = Idle | Active | Quarantined

  datatype BeginResult = Acquired | OperationInProgress | DeviceQuarantined

  datatype Owner = Nobody | Callback(id: nat)

  function Began(s: State): State { if s == Idle then Active else s }

  function Released(s: State): State { if s == Active then Idle else s }

  /** The state word, and the callback object that is kept alive. */
  datatype Contents = Contents(state: State, kept: Owner)

  datatype Call = Begin | Release | Quarantine(callback: Owner)

  function Called(g: Contents, call: Call): Contents {
    match call
    case Begin => g.(state := Began(g.state))
    case Release => g.(state := Released(g.state))
    case Quarantine(callback) => Contents(Quarantined, callback)
  }

  class Gate {
    var state: State
    var quarantinedCallback: Owner

    ghost function View(): Contents
      reads this
    {
      Contents(state, quarantinedCallback)
    }

    constructor ()
      ensures View() == Contents(Idle, Nobody)
    {
      state, quarantinedCallback := Idle, Nobody;
    }

    method Begin() returns (r: BeginResult)
      modifies this`state
      ensures View() == Called(old(View()), Call.Begin)
      ensures r == Acquired <==> old(state) == Idle
      ensures r == DeviceQuarantined <==> old(state) == Quarantined
    {
      var expected := state;
      if expected == Idle {
        state := Active;
        return Acquired;
      }
      r := if expected == Quarantined then DeviceQuarantined else OperationInProgress;
    }

    method Release()
      modifies this`state
      ensures View() == Called(old(View()), Call.Release)
      ensures old(state) == Quarantined ==> state == Quarantined
    {
      if state == Active {
        state := Idle;
      }
    }

    /** The callback is kept alive by the gate from now on. */
    method Quarantine(callback: Owner)
      modifies this
      ensures View() == Called(old(View()), Call.Quarantine(callback))
    {
      quarantinedCallback := callback;
      state := Quarantined;
    }
  }
}
