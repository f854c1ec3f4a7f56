/** The command that mirrors the driver joystick's connection state on the
    dashboard, publishing only when that state changes. */
module JoystickStatus {

  /** What the joystick reports on one scheduler tick. */
  datatype Joystick = Joystick(isConnected: bool, name: string, buttonCount: int)

  /** A dashboard value. */
  datatype DashValue = DBool(b: bool) | DString(s: string) | DNumber(n: int)

  /** One dashboard write. */
  datatype Put = Put(key: string, value: DashValue)

  const ConnectedKey: string := "Joystick Connected"
  const StatusKey: string := "Joystick Status"
  const NameKey: string := "Joystick Name"
  const ButtonCountKey: string := "Joystick Button Count"

  /** The status text for a connection state. */
  function StatusText(connected: bool): (r: string)
    ensures r in {"Connected", "Disconnected"}
  {
    if connected then "Connected" else "Disconnected"
  }

  /** The status text tells the two states apart. */
  lemma StatusTextDistinguishes(a: bool, b: bool)
    requires StatusText(a) == StatusText(b)
    ensures a == b
  {
  }

  /** `updateStatus`: publish the recorded state; name and button count
      only while connected. */
  function UpdateStatus(wasConnected: bool, j: Joystick): (puts: seq<Put>)
    ensures |puts| > 0 && puts[0] == Put(ConnectedKey, DBool(wasConnected))
    ensures Put(StatusKey, DString(StatusText(wasConnected))) in puts
    ensures (exists p :: p in puts && p.key == NameKey) <==> wasConnected
    ensures (exists p :: p in puts && p.key == ButtonCountKey) <==> wasConnected
  {
    var first := Put(ConnectedKey, DBool(wasConnected));
    if wasConnected then
      var r := [first, Put(StatusKey, DString("Connected")), Put(NameKey, DString(j.name)),
                Put(ButtonCountKey, DNumber(j.buttonCount))];
      assert r[2].key == NameKey && r[3].key == ButtonCountKey;
      r
    else
      [first, Put(StatusKey, DString("Disconnected"))]
  }

  /** `initialize`: record the current state and always publish. */
  function Initialize(j: Joystick): (r: (bool, seq<Put>))
    ensures r.0 == j.isConnected && |r.1| > 0
  {
    (j.isConnected, UpdateStatus(j.isConnected, j))
  }

  /** `execute`: publish only on a change of connection state. */
  function Execute(wasConnected: bool, j: Joystick): (r: (bool, seq<Put>))
    ensures r.0 == j.isConnected
    ensures |r.1| > 0 <==> j.isConnected != wasConnected
  {
    if j.isConnected != wasConnected then (j.isConnected, UpdateStatus(j.isConnected, j))
    else (wasConnected, [])
  }

  /** `isFinished`: the command never ends by itself. */
  function IsFinished(wasConnected: bool): (done: bool)
    ensures !done
  {
    false
  }

  // ------------------------------------------------------------ the dashboard

  /** The dashboard after some writes, later writes winning. */
  function Apply(dash: map<string, DashValue>, puts: seq<Put>): (r: map<string, DashValue>)
    ensures forall p :: p in puts ==> p.key in r
    ensures forall k :: k in dash ==> k in r
    decreases |puts|
  {
    if |puts| == 0 then dash else Apply(dash[puts[0].key := puts[0].value], puts[1..])
  }

  /** The dashboard shows a connection state. */
  predicate Shows(dash: map<string, DashValue>, connected: bool)
  {
    && ConnectedKey in dash && dash[ConnectedKey] == DBool(connected)
    && StatusKey in dash && dash[StatusKey] == DString(StatusText(connected))
  }

  /** Publishing the status makes the dashboard show that state. */
  lemma UpdateStatusShows(dash: map<string, DashValue>, connected: bool, j: Joystick)
    ensures Shows(Apply(dash, UpdateStatus(connected, j)), connected)
  {
    var d0 := dash[ConnectedKey := DBool(connected)];
    var d1 := d0[StatusKey := DString(StatusText(connected))];
    var puts := UpdateStatus(connected, j);
    assert puts[1..][1..] == puts[2..];
    assert Apply(dash, puts) == Apply(d1, puts[2..]);
    if connected {
      var rest := puts[2..];
      var d2 := d1[NameKey := DString(j.name)];
      var d3 := d2[ButtonCountKey := DNumber(j.buttonCount)];
      assert rest[0] == Put(NameKey, DString(j.name));
      assert Apply(d1, rest) == Apply(d2, rest[1..]);
      assert rest[1..][0] == Put(ButtonCountKey, DNumber(j.buttonCount)) && rest[1..][1..] == [];
      assert Apply(d2, rest[1..]) == d3;
    } else {
      assert puts[2..] == [];
    }
  }

  /** The dashboard tracks the joystick: after `initialize` and after every
      `execute` it shows the connection state of the latest tick, whether or
      not that tick published anything. */
  lemma {:induction false} DashboardTracksConnection(dash: map<string, DashValue>, first: Joystick, ticks: seq<Joystick>)
    ensures var s := RunTicks(Apply(dash, Initialize(first).1), first.isConnected, ticks);
      Shows(s.1, if |ticks| == 0 then first.isConnected else ticks[|ticks| - 1].isConnected)
    decreases |ticks|
  {
    UpdateStatusShows(dash, first.isConnected, first);
    if |ticks| > 0 {
      RunTicksShows(Apply(dash, Initialize(first).1), first.isConnected, ticks);
    }
  }

  /** Run `execute` over a series of ticks, returning the recorded state and
      the dashboard. */
  function RunTicks(dash: map<string, DashValue>, wasConnected: bool, ticks: seq<Joystick>): (r: (bool, map<string, DashValue>))
    ensures |ticks| > 0 ==> r.0 == ticks[|ticks| - 1].isConnected
    decreases |ticks|
  {
    if |ticks| == 0 then (wasConnected, dash)
    else
      var e := Execute(wasConnected, ticks[0]);
      RunTicks(Apply(dash, e.1), e.0, ticks[1..])
  }

  lemma {:induction false} RunTicksShows(dash: map<string, DashValue>, wasConnected: bool, ticks: seq<Joystick>)
    requires Shows(dash, wasConnected)
    ensures Shows(RunTicks(dash, wasConnected, ticks).1, RunTicks(dash, wasConnected, ticks).0)
    decreases |ticks|
  {
    if |ticks| > 0 {
      var e := Execute(wasConnected, ticks[0]);
      if ticks[0].isConnected != wasConnected {
        UpdateStatusShows(dash, ticks[0].isConnected, ticks[0]);
      } else {
        assert Apply(dash, e.1) == dash;
      }
      RunTicksShows(Apply(dash, e.1), e.0, ticks[1..]);
    }
  }
}
