/**
 * The Robot24 ros2_control system plugin: the joint list it was configured
 * with and its four per-joint buffers, updated in place by the lifecycle
 * callbacks and the read/write cycle.
 */
module Robot24Hardware {
  import opened Wrappers
  import opened Values
  import opened HardwareInfo
  import opened JointValidation
  import opened InterfaceExport
  import opened BufferUpdates

  /** One call `joint.actuate(command, duration)` into the robot library. */
  datatype Actuation = Actuation(joint: string, command: Value, duration: nat)

  /** `uint8_t duration = 1` in write. */
  const ActuationDuration: nat := 1

  /** A fresh copy of `a` resized to `n` slots, padding with NaN. */
  method Resize(a: array<Value>, n: nat) returns (b: array<Value>)
    ensures fresh(b) && b[..] == Resized(a[..], n)
  {
    b := new Value[n](i reads a => if 0 <= i < a.Length then a[i] else NaN);
    assert forall i :: 0 <= i < n ==> b[..][i] == Resized(a[..], n)[i];
  }

  class Robot24SystemHardware {
    /** `info_.joints`. */
    var joints: seq<ComponentInfo>
    /** `hw_states_`: sized and filled by on_init, never read or written afterwards. */
    var states: array<Value>
    /** `hw_commands_`. */
    var commands: array<Value>
    /** `hw_positions_`. */
    var positions: array<Value>
    /** `hw_velocities_`. */
    var velocities: array<Value>

    /** Every buffer has one slot per joint, and the buffers are four distinct vectors. */
    ghost predicate Valid()
      reads this
    {
      && states.Length == |joints| && commands.Length == |joints|
      && positions.Length == |joints| && velocities.Length == |joints|
      && positions != velocities && positions != commands && velocities != commands
      && states != positions && states != velocities && states != commands
    }

    /** The positions, velocities and commands buffers as values. */
    ghost function View(): Buffers
      reads this, positions, velocities, commands
    {
      Buffers(positions[..], velocities[..], commands[..])
    }

    /** The names of the configured joints, in order. */
    ghost function JointNames(): (names: seq<string>)
      reads this
      ensures |names| == |joints| && forall i :: 0 <= i < |joints| ==> names[i] == joints[i].name
    {
      seq(|joints|, i requires 0 <= i < |joints| reads this => joints[i].name)
    }

    /** A newly constructed plugin: no joints and empty buffers. */
    constructor ()
      ensures Valid() && joints == []
      ensures fresh(states) && fresh(commands) && fresh(positions) && fresh(velocities)
    {
      joints := [];
      states := new Value[0];
      commands := new Value[0];
      positions := new Value[0];
      velocities := new Value[0];
    }

    /**
     * on_init. `baseInitOk` is the result of the base class's on_init, which
     * stores `info` as `info_`. The buffers are resized to the joint count
     * before the joints are validated, so they are resized on ERROR as well.
     */
    method OnInit(info: seq<ComponentInfo>, baseInitOk: bool) returns (r: CallbackReturn)
      requires Valid()
      modifies this
      ensures Valid()
      ensures r == Success || r == Error
      ensures r == Success <==> baseInitOk && FirstFailure(info).None?
      ensures !baseInitOk ==> unchanged(this)
      ensures baseInitOk ==>
        && joints == info
        && fresh(states) && fresh(commands) && fresh(positions) && fresh(velocities)
        && states[..] == Resized(old(states[..]), |info|)
        && commands[..] == Resized(old(commands[..]), |info|)
        && positions[..] == Resized(old(positions[..]), |info|)
        && velocities[..] == Resized(old(velocities[..]), |info|)
    {
      if !baseInitOk {
        return Error;
      }
      joints := info;

      states := Resize(states, |joints|);
      commands := Resize(commands, |joints|);
      positions := Resize(positions, |joints|);
      velocities := Resize(velocities, |joints|);

      var i := 0;
      while i < |joints|
        invariant 0 <= i <= |joints|
        invariant forall k :: 0 <= k < i ==> WellFormedJoint(joints[k])
      {
        if CheckJoint(joints[i]).Some? {
          return Error;
        }
        i := i + 1;
      }
      return Success;
    }

    /** export_state_interfaces: position then velocity for every joint, bound to its buffer slots. */
    method ExportStateInterfaces() returns (r: seq<Interface>)
      requires Valid()
      ensures r == StateInterfacesFor(joints)
      ensures |r| == 2 * |joints|
      ensures forall i :: 0 <= i < |joints| ==>
        && r[2 * i] == Interface(joints[i].name, PositionInterface, Positions, i)
        && r[2 * i + 1] == Interface(joints[i].name, VelocityInterface, Velocities, i)
    {
      r := [];
      for i := 0 to |joints|
        invariant r == StateInterfacesFor(joints[..i])
      {
        r := r + [Interface(joints[i].name, PositionInterface, Positions, i)];
        r := r + [Interface(joints[i].name, VelocityInterface, Velocities, i)];
        assert joints[..i + 1][..i] == joints[..i];
      }
      assert joints[..|joints|] == joints;
    }

    /** export_command_interfaces: one command interface per joint, velocity for wheels, position otherwise. */
    method ExportCommandInterfaces() returns (r: seq<Interface>)
      requires Valid()
      ensures r == CommandInterfacesFor(joints)
      ensures |r| == |joints|
      ensures forall i :: 0 <= i < |joints| ==>
        r[i] == Interface(joints[i].name, CommandTypeFor(joints[i].name), Commands, i)
    {
      r := [];
      for i := 0 to |joints|
        invariant r == CommandInterfacesFor(joints[..i])
      {
        r := r + [Interface(joints[i].name, CommandTypeFor(joints[i].name), Commands, i)];
      }
      assert joints[..|joints|] == joints;
    }

    /** on_activate: every joint whose position is still NaN gets position, velocity and command zero. */
    method OnActivate() returns (r: CallbackReturn)
      requires Valid()
      modifies positions, velocities, commands
      ensures Valid()
      ensures r == Success
      ensures View() == Activated(old(View()))
    {
      ghost var before := View();
      ghost var after := Activated(before);
      for i := 0 to positions.Length
        invariant forall k :: 0 <= k < i ==>
          positions[k] == after.positions[k] && velocities[k] == after.velocities[k] && commands[k] == after.commands[k]
        invariant forall k :: i <= k < positions.Length ==>
          positions[k] == before.positions[k] && velocities[k] == before.velocities[k] && commands[k] == before.commands[k]
      {
        if IsNaN(positions[i]) {
          positions[i] := Zero;
          velocities[i] := Zero;
          commands[i] := Zero;
        }
      }
      assert positions[..] == after.positions;
      assert velocities[..] == after.velocities;
      assert commands[..] == after.commands;
      return Success;
    }

    /**
     * read: looks every joint up in the robot library and changes no buffer.
     * `lookups` lists the joint names passed to `getJoint`, in call order.
     */
    method Read() returns (r: ReturnType, lookups: seq<string>)
      requires Valid()
      ensures r == Ok
      ensures lookups == JointNames()
    {
      lookups := [];
      for i := 0 to velocities.Length
        invariant lookups == JointNames()[..i]
      {
        lookups := lookups + [joints[i].name];
      }
      return Ok, lookups;
    }

    /**
     * write: negates the stored command of every right-wheel joint, mirrors
     * each command into the velocities buffer and sends it to the joint.
     * `sent` lists the `actuate` calls in call order.
     */
    method Write() returns (r: ReturnType, sent: seq<Actuation>)
      requires Valid()
      modifies velocities, commands
      ensures Valid()
      ensures r == Ok
      ensures View() == Written(old(View()), JointNames())
      ensures |sent| == |joints|
      ensures forall i :: 0 <= i < |joints| ==> sent[i] == Actuation(joints[i].name, commands[i], ActuationDuration)
    {
      ghost var before := View();
      ghost var after := Written(before, JointNames());
      sent := [];
      for i := 0 to |joints|
        invariant |sent| == i
        invariant forall k :: 0 <= k < i ==>
          commands[k] == after.commands[k] && velocities[k] == after.velocities[k]
          && sent[k] == Actuation(joints[k].name, commands[k], ActuationDuration)
        invariant forall k :: i <= k < |joints| ==>
          commands[k] == before.commands[k] && velocities[k] == before.velocities[k]
      {
        if IsRightWheel(joints[i].name) {
          commands[i] := Neg(commands[i]);
        }
        velocities[i] := commands[i];
        sent := sent + [Actuation(joints[i].name, commands[i], ActuationDuration)];
      }
      assert commands[..] == after.commands;
      assert velocities[..] == after.velocities;
      return Ok, sent;
    }
  }

  /**
   * Loading the plugin: a new instance followed by on_init. Because the
   * buffers of a new instance are empty, every buffer ends with one NaN per joint.
   */
  method Load(info: seq<ComponentInfo>, baseInitOk: bool) returns (hw: Robot24SystemHardware, r: CallbackReturn)
    ensures fresh(hw) && hw.Valid()
    ensures r == Success <==> baseInitOk && FirstFailure(info).None?
    ensures baseInitOk ==>
      && hw.joints == info
      && hw.View() == Buffers(NaNs(|info|), NaNs(|info|), NaNs(|info|))
      && hw.states[..] == NaNs(|info|)
  {
    hw := new Robot24SystemHardware();
    assert hw.states[..] == [] && hw.positions[..] == [] && hw.velocities[..] == [] && hw.commands[..] == [];
    r := hw.OnInit(info, baseInitOk);
  }
}
