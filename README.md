# Robot24 hardware interface, modelled in Dafny

This project models `Robot24SystemHardware`, the ros2_control system plugin of
the Osprey Robotics 2024 mining robot (`src/robot24_hardware_interface.cpp`).
The plugin keeps the joint list from the robot description, along with four
per-joint buffers of doubles: states, commands, positions and velocities. It
goes through the ros2_control lifecycle as follows:

- **on_init** stores the joint list and resizes the four buffers to one slot
  per joint, padding with NaN. It then checks every joint in order. A joint needs exactly one command
  interface, and its first state interface must be `position`. A joint whose
  name contains `wheel` must also be commanded in `velocity` and report exactly
  two state interfaces, `position` then `velocity`. The first joint that fails
  decides the error.
- **export_state_interfaces** exports two state interfaces per joint: position,
  then velocity. Each is bound to that joint's slot in the positions or
  velocities buffer.
- **export_command_interfaces** exports one command interface per joint. It is
  `velocity` for wheel joints and `position` for all others, and it is bound to
  the joint's slot in the commands buffer.
- **on_activate** gives position, velocity and command 0 to every joint whose
  position is still NaN.
- **read** looks each joint up in the robot library and changes no buffer.
- **write** negates, in the commands buffer itself, the command of every joint
  whose name contains `right_wheel`. It then copies each command into the
  velocities buffer and sends it to the joint.

Modules:

- `Values`: a buffer entry is NaN or a number. The plugin only tests for NaN,
  negates, copies and zeroes.
- `Strings`: `Contains` models `name.find(pattern) != std::string::npos`.
- `HardwareInfo`: joints, interface names, callback results and exported
  interfaces.
  - An exported interface's pointer `&hw_positions_[i]` is modelled as the pair
    (buffer, index).
- `JointValidation`: the pure check behind on_init.
- `InterfaceExport`: the lists the two export functions build.
- `BufferUpdates`: what on_init, on_activate and write do to the buffers,
  stated on sequences.
- `Robot24Hardware`: the class `Robot24SystemHardware`. Its array fields are
  updated in place by methods proved against the functions above.

Two behaviours of the code worth knowing:

- on_init does not check the command interface name of a joint that is not a
  wheel. export_command_interfaces still offers `position` for such a joint.
  `WheelExportMatchesDeclaration` therefore shows the export agrees with the
  declaration for wheel joints only.
- `hw_states_` is sized and filled with NaN by on_init and is never used after
  that.

## Model

| member | source | states |
|---|---|---|
| `Values.Neg` | src/robot24_hardware_interface.cpp:211 | negating a double keeps NaN as NaN and changes the sign of a number |
| `Values.NegInvolutive` | src/robot24_hardware_interface.cpp:210-211 | negating twice gives back the original value |
| `Strings.Contains` | src/robot24_hardware_interface.cpp:54 | the left-to-right scan of `find` succeeds exactly when the pattern occurs somewhere in the name |
| `Strings.ContainsTransitive` | src/robot24_hardware_interface.cpp:210 | a name that contains a string also contains every substring of that string |
| `HardwareInfo.IsWheel` | src/robot24_hardware_interface.cpp:54 | the `find("wheel") != npos` test of lines 54, 65, 85 and 126 holds exactly when `wheel` occurs in the joint name |
| `HardwareInfo.IsRightWheel` | src/robot24_hardware_interface.cpp:210 | the `find("right_wheel") != npos` test holds exactly when `right_wheel` occurs in the joint name |
| `HardwareInfo.RightWheelIsWheel` | src/robot24_hardware_interface.cpp:210 | every joint that write negates (name contains `right_wheel`) is a wheel joint (name contains `wheel`) |
| `JointValidation.CheckJoint` | src/robot24_hardware_interface.cpp:44-94 | one loop iteration rejects a joint exactly when it breaks the declared layout; the error names that joint; a wrong command-interface count is reported first |
| `JointValidation.FirstFailure` | src/robot24_hardware_interface.cpp:42-97 | validation passes exactly when every joint is well formed; otherwise it reports a failing joint whose predecessors all pass, with that joint's own error |
| `JointValidation.RejectsCommandInterfaceCount` | src/robot24_hardware_interface.cpp:45-52 | a joint with other than one command interface makes validation fail, at that joint or earlier |
| `JointValidation.RejectsMalformedWheel` | src/robot24_hardware_interface.cpp:54-94 | a wheel joint fails unless it has one `velocity` command interface and exactly two state interfaces, the second being `velocity` |
| `JointValidation.RejectsFirstStateNotPosition` | src/robot24_hardware_interface.cpp:75-83 | a joint whose first state interface is missing or is not `position` makes validation fail |
| `JointValidation.FirstFailureIsFirst` | src/robot24_hardware_interface.cpp:42-97 | the first failing joint in list order decides the reported error |
| `JointValidation.FirstFailureAppend` | src/robot24_hardware_interface.cpp:42-95 | validation of a concatenation checks all of the first part before any of the second |
| `JointValidation.ReachesFirstStateRead` | src/robot24_hardware_interface.cpp:45-73 | a joint passes the three checks before line 75 exactly when the corrected check does not reject it with one of its first three errors |
| `JointValidation.CheckJointAsWritten` | src/robot24_hardware_interface.cpp:45-94 | the if-chain exactly as written, defined only where the read at line 75 is in bounds; there it accepts exactly the well-formed joints |
| `JointValidation.CorrectionAgreesWithCodeAsWritten` | src/robot24_hardware_interface.cpp:45-94 | on every joint the code as written handles without an out-of-bounds read, the corrected check gives the same result |
| `JointValidation.FirstStateReadUnguarded` | src/robot24_hardware_interface.cpp:45-75 | a non-wheel joint with one command interface and no state interface passes every check before the read of `state_interfaces[0]` |
| `JointValidation.WheelFirstStateReadInBounds` | src/robot24_hardware_interface.cpp:65-75 | for a wheel joint, the count check before the read guarantees that the state-interface list is not empty |
| `JointValidation.MissingStateInterfacesReported` | src/robot24_hardware_interface.cpp:75 | the corrected check rejects every such joint with an explicit missing-state-interface error |
| `JointValidation.NoStateInterfacesOnlyAtUnguardedRead` | src/robot24_hardware_interface.cpp:75 | the corrected check reports a missing state interface only for joints that reach the read at line 75 with an empty list |
| `InterfaceExport.StateInterfacesFor` | src/robot24_hardware_interface.cpp:105-116 | 2·n entries; entry 2i is (joint i, `position`, positions[i]) and entry 2i+1 is (joint i, `velocity`, velocities[i]) |
| `InterfaceExport.CommandTypeFor` | src/robot24_hardware_interface.cpp:126-139 | a joint's command interface is `velocity` exactly when its name contains `wheel`, and `position` exactly when it does not |
| `InterfaceExport.CommandInterfacesFor` | src/robot24_hardware_interface.cpp:124-142 | n entries; entry i is bound to commands[i], carries joint i's name, and is `velocity` if that name contains `wheel`, else `position` |
| `InterfaceExport.StateInterfacesDistinctSlots` | src/robot24_hardware_interface.cpp:105-115 | no two exported state interfaces share a buffer slot: the two entries of every joint, the last one included, are in different buffers, and entries of different joints have different indices |
| `InterfaceExport.StateInterfacesCoverSlots` | src/robot24_hardware_interface.cpp:105-115 | every slot of the positions and velocities buffers is exported |
| `InterfaceExport.CommandInterfacesDistinctSlots` | src/robot24_hardware_interface.cpp:124-140 | every command interface, of any joint, is bound to the commands buffer, and different joints get different slots |
| `InterfaceExport.RightWheelCommandIsVelocity` | src/robot24_hardware_interface.cpp:126-131 | the commands that write negates always belong to velocity command interfaces |
| `InterfaceExport.WheelExportMatchesDeclaration` | src/robot24_hardware_interface.cpp:126-131 | after validation passes, a wheel joint's exported command and state types are the ones declared for it |
| `BufferUpdates.Resized` | src/robot24_hardware_interface.cpp:37-40 | `resize(n, NaN)` gives n entries; existing entries are kept and new ones are NaN |
| `BufferUpdates.ResizedFromEmpty` | src/robot24_hardware_interface.cpp:37-40 | resizing an empty buffer gives n NaNs |
| `BufferUpdates.ActivatedSlot` | src/robot24_hardware_interface.cpp:160-165 | after activation a joint's position is never NaN, and a joint whose position was not NaN keeps all three values |
| `BufferUpdates.Activated` | src/robot24_hardware_interface.cpp:158-166 | joints with a NaN position get position, velocity and command 0; all other joints keep their values |
| `BufferUpdates.ActivatedDefined` | src/robot24_hardware_interface.cpp:158-166 | a joint with a NaN position gets position, velocity and command 0; a joint with a position keeps all three values; afterwards no position is NaN |
| `BufferUpdates.ActivateIdempotent` | src/robot24_hardware_interface.cpp:158-166 | running on_activate twice gives the same buffers as running it once |
| `BufferUpdates.ActivateAfterInit` | src/robot24_hardware_interface.cpp:157-166 | activating the all-NaN buffers left by on_init sets every joint to zero |
| `BufferUpdates.Written` | src/robot24_hardware_interface.cpp:204-224 | write keeps positions, sets velocities equal to the new commands, and negates exactly the right-wheel commands |
| `BufferUpdates.WriteTwiceRestoresCommands` | src/robot24_hardware_interface.cpp:210-213 | two writes restore the original commands and leave velocities equal to them |
| `BufferUpdates.WrittenCommandsChange` | src/robot24_hardware_interface.cpp:210-211 | only right-wheel commands change; a NaN command stays NaN |
| `BufferUpdates.WriteKeepsActivatedPositions` | src/robot24_hardware_interface.cpp:204-224 | write never makes a position NaN again after on_activate |
| `BufferUpdates.WrittenCommand` | src/robot24_hardware_interface.cpp:210-211 | a command keeps its NaN-ness; it is unchanged for joints that are not right wheels, and negated for right wheels |
| `Robot24Hardware.Resize` | src/robot24_hardware_interface.cpp:37-40 | a buffer is replaced by its resized copy |
| `Robot24Hardware.Robot24SystemHardware.OnInit` | src/robot24_hardware_interface.cpp:21-98 | SUCCESS exactly when the base class succeeds and every joint passes; the joint list is stored and all four buffers are resized before validation |
| `Robot24Hardware.Robot24SystemHardware.ExportStateInterfaces` | src/robot24_hardware_interface.cpp:100-117 | the loop builds exactly the state-interface list above |
| `Robot24Hardware.Robot24SystemHardware.ExportCommandInterfaces` | src/robot24_hardware_interface.cpp:119-143 | the loop builds exactly the command-interface list above |
| `Robot24Hardware.Robot24SystemHardware.OnActivate` | src/robot24_hardware_interface.cpp:145-171 | returns SUCCESS; the buffers become their activated form in place |
| `Robot24Hardware.Robot24SystemHardware.Read` | src/robot24_hardware_interface.cpp:190-199 | returns OK; looks up every joint by name in order; modifies nothing |
| `Robot24Hardware.Robot24SystemHardware.Write` | src/robot24_hardware_interface.cpp:201-227 | returns OK; the buffers become their written form in place; each joint is actuated with its new command and duration 1 |
| `Robot24Hardware.Load` | src/robot24_hardware_interface.cpp:21-40 | on a new instance, a successful base on_init leaves every buffer holding one NaN per joint |

## Findings

| source | as written | input that shows it | evidently intended | confidence | as-written member | corrected member |
|---|---|---|---|---|---|---|
| src/robot24_hardware_interface.cpp:75 | `state_interfaces[0]` is read for a joint that is not a wheel without checking that the list is non-empty; the size check at lines 65-66 covers wheel joints only | a joint `arm_joint` with one `position` command interface and no state interface | reject the joint with an error, as for every other layout fault | not executed; medium (reading index 0 of an empty `std::vector` is undefined behaviour) | `JointValidation.CheckJointAsWritten` | `JointValidation.CheckJoint` |

`JointValidation.CheckJointAsWritten` is the if-chain as written. Its
precondition is what the code silently assumes: a joint that passes the three
checks before line 75 (`ReachesFirstStateRead`) has a state interface.
`FirstStateReadUnguarded` exhibits a joint that breaks this assumption. The
corrected `CheckJoint` adds a `NoStateInterfaces` error just before the
first-state check, and the rest of the model uses it.
- `CorrectionAgreesWithCodeAsWritten` shows it agrees with the code as written
  wherever the code stays in bounds.
- `MissingStateInterfacesReported` and `NoStateInterfacesOnlyAtUnguardedRead`
  together show the new error is raised exactly for the joints that would reach
  the unguarded read with an empty list.

## Left out

- The base-class `SystemInterface::on_init` (lines 24-28) is a boolean input to
  `OnInit`. When it fails, the model leaves the plugin unchanged.
- `Robot24Hardware.Robot24SystemHardware.OnInit` assumes that
  `hw_start_duration_sec` and `hw_stop_duration_sec` both parse; the
  `std::stod` parsing (lines 33-34) is not modelled.
  - In the source, a missing key reads as an empty string, and `std::stod("")`
    throws `std::invalid_argument` from on_init itself.
  - The throw comes before the resize at lines 37-40, so on_init does not return
    and the buffers stay unsized. The model has no path for this exception.
- Constructing `osprey_robotics::Robot` (line 30) is left out. The robot library
  is foreign code and is not part of this model.
- `getJoint` and `actuate` are foreign calls. The model does not run them.
  - `Read` returns the names it looks up.
  - `Write` returns the `actuate` calls it makes.
  - Neither touches a buffer.
- The countdown sleeps and logging in on_activate (lines 148-155, 168) are
  left out. They are timing and I/O.
- on_deactivate (lines 173-188) is left out. It only sleeps, logs and returns
  SUCCESS.
- All `RCLCPP_*` logging is left out. The FATAL messages of on_init appear only
  as the `InitError` that `FirstFailure` reports.
- The pluginlib export (lines 231-233) is left out. It is framework
  registration.
- Floating point is modelled as NaN or a real number.
  - Signed zero is not distinguished: negating 0 gives 0, not -0.
  - No arithmetic other than negation, copying and zeroing appears in the code.
- Exported interfaces hold a buffer name and an index instead of a raw pointer.
  - Aliasing through those pointers by the controller manager is not modelled.
  - Callers can change the values behind the pointers between calls, and the
    model does not capture that.
- The launch descriptions under `launch2/` are left out. They are declarative
  configuration for the ROS 2 launch system and contain no logic of the plugin.
