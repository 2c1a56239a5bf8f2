/**
 * The interfaces the plugin hands to the controller manager: two state
 * interfaces per joint (position, velocity) and one command interface per
 * joint (velocity for wheels, position otherwise), each bound to the joint's
 * slot in a member buffer.
 */
module InterfaceExport {
  import opened HardwareInfo
  import opened JointValidation

  /**
   * What export_state_interfaces returns for `joints`, built as its loop
   * builds it: the entries for joint i are appended after those of joints 0..i-1.
   */
  function StateInterfacesFor(joints: seq<ComponentInfo>): (r: seq<Interface>)
    ensures |r| == 2 * |joints|
    ensures forall i :: 0 <= i < |joints| ==>
      && r[2 * i] == Interface(joints[i].name, PositionInterface, Positions, i)
      && r[2 * i + 1] == Interface(joints[i].name, VelocityInterface, Velocities, i)
    decreases |joints|
  {
    if joints == [] then []
    else
      var i := |joints| - 1;
      StateInterfacesFor(joints[..i])
        + [Interface(joints[i].name, PositionInterface, Positions, i),
           Interface(joints[i].name, VelocityInterface, Velocities, i)]
  }

  /** The type export_command_interfaces gives a joint's command interface. */
  function CommandTypeFor(name: string): (t: string)
    ensures t == VelocityInterface <==> IsWheel(name)
    ensures t == PositionInterface <==> !IsWheel(name)
  {
    if IsWheel(name) then VelocityInterface else PositionInterface
  }

  /** What export_command_interfaces returns for `joints`, built as its loop builds it. */
  function CommandInterfacesFor(joints: seq<ComponentInfo>): (r: seq<Interface>)
    ensures |r| == |joints|
    ensures forall i :: 0 <= i < |joints| ==>
      r[i] == Interface(joints[i].name, CommandTypeFor(joints[i].name), Commands, i)
    decreases |joints|
  {
    if joints == [] then []
    else
      var i := |joints| - 1;
      CommandInterfacesFor(joints[..i]) + [Interface(joints[i].name, CommandTypeFor(joints[i].name), Commands, i)]
  }

  /**
   * No two exported state interfaces are bound to the same buffer slot: the two
   * entries of any joint i differ in buffer, and entries of different joints
   * differ in index.
   */
  lemma StateInterfacesDistinctSlots(joints: seq<ComponentInfo>, i: nat, j: nat)
    requires i < |joints| && j < |joints|
    ensures var r := StateInterfacesFor(joints);
      && r[2 * i].buffer != r[2 * i + 1].buffer
      && (i != j ==>
            && r[2 * i].index != r[2 * j].index && r[2 * i].index != r[2 * j + 1].index
            && r[2 * i + 1].index != r[2 * j].index && r[2 * i + 1].index != r[2 * j + 1].index)
  {
  }

  /**
   * Every slot of the positions and velocities buffers is exported as at least
   * one state interface (and, by StateInterfacesDistinctSlots, as at most one).
   */
  lemma StateInterfacesCoverSlots(joints: seq<ComponentInfo>, i: nat)
    requires i < |joints|
    ensures exists k :: 0 <= k < 2 * |joints| && StateInterfacesFor(joints)[k].buffer == Positions && StateInterfacesFor(joints)[k].index == i
    ensures exists k :: 0 <= k < 2 * |joints| && StateInterfacesFor(joints)[k].buffer == Velocities && StateInterfacesFor(joints)[k].index == i
  {
    var r := StateInterfacesFor(joints);
    assert r[2 * i].buffer == Positions && r[2 * i].index == i;
    assert r[2 * i + 1].buffer == Velocities && r[2 * i + 1].index == i;
  }

  /** The command interfaces are bound to distinct slots of the commands buffer and to nothing else. */
  lemma CommandInterfacesDistinctSlots(joints: seq<ComponentInfo>, a: nat, b: nat)
    requires a < |joints| && b < |joints|
    ensures var r := CommandInterfacesFor(joints);
            r[a].buffer == Commands && (a != b ==> r[a].index != r[b].index)
  {
  }

  /** A right-wheel joint, whose commands write sign-flips, is always exported as a velocity command. */
  lemma RightWheelCommandIsVelocity(joints: seq<ComponentInfo>, i: nat)
    requires i < |joints| && IsRightWheel(joints[i].name)
    ensures CommandInterfacesFor(joints)[i].interfaceName == VelocityInterface
  {
    RightWheelIsWheel(joints[i].name);
  }

  /**
   * Once validation has passed, every wheel joint's exported command interface
   * has the type declared for it, and so has its second exported state interface.
   */
  lemma WheelExportMatchesDeclaration(joints: seq<ComponentInfo>, i: nat)
    requires FirstFailure(joints).None?
    requires i < |joints| && IsWheel(joints[i].name)
    ensures CommandInterfacesFor(joints)[i].interfaceName == joints[i].commandInterfaces[0].name
    ensures StateInterfacesFor(joints)[2 * i].interfaceName == joints[i].stateInterfaces[0].name
    ensures StateInterfacesFor(joints)[2 * i + 1].interfaceName == joints[i].stateInterfaces[1].name
  {
    assert WellFormedJoint(joints[i]);
  }
}
