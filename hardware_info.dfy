/**
 * The parts of ros2_control's hardware description that the Robot24 plugin
 * uses: joints with their command and state interfaces, the interface type
 * names, the callback results, and the interfaces the plugin exports.
 */
module HardwareInfo {
  import opened Strings

  /** `hardware_interface::HW_IF_POSITION`. */
  const PositionInterface: string := "position"
  /** `hardware_interface::HW_IF_VELOCITY`. */
  const VelocityInterface: string := "velocity"

  /** One `<command_interface>` or `<state_interface>` of a joint; only its name matters here. */
  datatype InterfaceInfo = InterfaceInfo(name: string)

  /** One entry of `info_.joints`. */
  datatype ComponentInfo = ComponentInfo(
    name: string,
    commandInterfaces: seq<InterfaceInfo>,
    stateInterfaces: seq<InterfaceInfo>)

  /** `hardware_interface::CallbackReturn`. */
  datatype CallbackReturn = Success | Failure | Error

  /** `hardware_interface::return_type`. */
  datatype ReturnType = Ok | Err

  /** A joint driven in velocity: its name contains "wheel". */
  predicate IsWheel(name: string)
    ensures IsWheel(name) <==> exists i :: OccursAt(name, "wheel", i)
  {
    Contains(name, "wheel")
  }

  /** A joint whose commands are sign-flipped on write: its name contains "right_wheel". */
  predicate IsRightWheel(name: string)
    ensures IsRightWheel(name) <==> exists i :: OccursAt(name, "right_wheel", i)
  {
    Contains(name, "right_wheel")
  }

  /** Every right-wheel joint is a wheel joint. */
  lemma RightWheelIsWheel(name: string)
    ensures IsRightWheel(name) ==> IsWheel(name)
  {
    if IsRightWheel(name) {
      assert "right_wheel"[6..11] == "wheel";
      ContainsTransitive(name, "right_wheel", "wheel", 6);
    }
  }

  /** The member buffers an exported interface can point into. */
  datatype BufferId = Positions | Velocities | Commands

  /**
   * A `StateInterface` or `CommandInterface`: joint name, interface type, and
   * the address `&buffer[index]` it is bound to.
   */
  datatype Interface = Interface(prefixName: string, interfaceName: string, buffer: BufferId, index: nat)
}
