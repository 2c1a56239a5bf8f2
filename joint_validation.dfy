/**
 * The joint-layout check that on_init runs over `info_.joints`: every joint
 * has one command interface and position as its first state interface, and
 * every wheel joint is commanded in velocity and reports exactly position
 * then velocity. The first joint that fails a check decides the error.
 */
module JointValidation {
  import opened Wrappers
  import opened HardwareInfo

  /** Why on_init rejects a joint: the FATAL message it logs, by kind. */
  datatype InitError =
    | CommandInterfaceCount(joint: string, count: nat)
    | WheelCommandNotVelocity(joint: string, found: string)
    | WheelStateInterfaceCount(joint: string, count: nat)
    | NoStateInterfaces(joint: string)
    | FirstStateNotPosition(joint: string, found: string)
    | WheelSecondStateNotVelocity(joint: string, found: string)

  /** The joint layout the plugin accepts, stated declaratively. */
  predicate WellFormedJoint(j: ComponentInfo) {
    && |j.commandInterfaces| == 1
    && 1 <= |j.stateInterfaces|
    && j.stateInterfaces[0].name == PositionInterface
    && (IsWheel(j.name) ==>
          && j.commandInterfaces[0].name == VelocityInterface
          && |j.stateInterfaces| == 2
          && j.stateInterfaces[1].name == VelocityInterface)
  }

  /**
   * The checks of one loop iteration of on_init, in the order the code makes
   * them. `None` means the joint passes. The check for an empty state-interface
   * list is not in the code (see ReachesFirstStateRead); it stands where the
   * code would read past the end of the list.
   */
  function CheckJoint(j: ComponentInfo): (r: Option<InitError>)
    ensures r.None? <==> WellFormedJoint(j)
    ensures r.Some? ==> r.value.joint == j.name
    ensures |j.commandInterfaces| != 1 ==> r == Some(CommandInterfaceCount(j.name, |j.commandInterfaces|))
  {
    if |j.commandInterfaces| != 1 then
      Some(CommandInterfaceCount(j.name, |j.commandInterfaces|))
    else if IsWheel(j.name) && j.commandInterfaces[0].name != VelocityInterface then
      Some(WheelCommandNotVelocity(j.name, j.commandInterfaces[0].name))
    else if IsWheel(j.name) && |j.stateInterfaces| != 2 then
      Some(WheelStateInterfaceCount(j.name, |j.stateInterfaces|))
    else if |j.stateInterfaces| == 0 then
      Some(NoStateInterfaces(j.name))
    else if j.stateInterfaces[0].name != PositionInterface then
      Some(FirstStateNotPosition(j.name, j.stateInterfaces[0].name))
    else if IsWheel(j.name) && j.stateInterfaces[1].name != VelocityInterface then
      Some(WheelSecondStateNotVelocity(j.name, j.stateInterfaces[1].name))
    else
      None
  }

  /** The joint at `index` is the first to fail, with `error`. */
  datatype JointFailure = JointFailure(index: nat, error: InitError)

  /**
   * The outcome of on_init's validation loop over `joints`: `None` when every
   * joint passes, otherwise the first failing joint and its error.
   */
  function FirstFailure(joints: seq<ComponentInfo>): (r: Option<JointFailure>)
    ensures r.None? <==> forall k :: 0 <= k < |joints| ==> WellFormedJoint(joints[k])
    ensures r.Some? ==>
      && r.value.index < |joints|
      && CheckJoint(joints[r.value.index]) == Some(r.value.error)
      && forall k :: 0 <= k < r.value.index ==> WellFormedJoint(joints[k])
  {
    if joints == [] then None
    else
      match CheckJoint(joints[0])
      case Some(e) => Some(JointFailure(0, e))
      case None =>
        match FirstFailure(joints[1..])
        case None => None
        case Some(f) => Some(JointFailure(f.index + 1, f.error))
  }

  /** A joint with other than one command interface makes the whole validation fail. */
  lemma RejectsCommandInterfaceCount(joints: seq<ComponentInfo>, k: nat)
    requires k < |joints| && |joints[k].commandInterfaces| != 1
    ensures FirstFailure(joints).Some? && FirstFailure(joints).value.index <= k
  {
    assert !WellFormedJoint(joints[k]);
  }

  /**
   * A wheel joint passes only if it is commanded in velocity and reports
   * exactly two state interfaces, the second being velocity.
   */
  lemma RejectsMalformedWheel(joints: seq<ComponentInfo>, k: nat)
    requires k < |joints| && IsWheel(joints[k].name)
    requires !(&& |joints[k].commandInterfaces| == 1
               && joints[k].commandInterfaces[0].name == VelocityInterface
               && |joints[k].stateInterfaces| == 2
               && joints[k].stateInterfaces[1].name == VelocityInterface)
    ensures FirstFailure(joints).Some? && FirstFailure(joints).value.index <= k
  {
    assert !WellFormedJoint(joints[k]);
  }

  /** A joint whose first state interface is missing or not position makes validation fail. */
  lemma RejectsFirstStateNotPosition(joints: seq<ComponentInfo>, k: nat)
    requires k < |joints|
    requires |joints[k].stateInterfaces| == 0 || joints[k].stateInterfaces[0].name != PositionInterface
    ensures FirstFailure(joints).Some? && FirstFailure(joints).value.index <= k
  {
    assert !WellFormedJoint(joints[k]);
  }

  /**
   * The first failing joint decides the error: a failure found at index `k`
   * is the one reported whenever all joints before `k` pass.
   */
  lemma {:induction false} FirstFailureIsFirst(joints: seq<ComponentInfo>, k: nat)
    requires k < |joints| && CheckJoint(joints[k]).Some?
    requires forall m :: 0 <= m < k ==> CheckJoint(joints[m]).None?
    ensures FirstFailure(joints) == Some(JointFailure(k, CheckJoint(joints[k]).value))
  {
    if k > 0 {
      assert joints[1..][k - 1] == joints[k];
      FirstFailureIsFirst(joints[1..], k - 1);
    }
  }

  /** Validation of a concatenation: the first part is checked entirely before the second. */
  lemma {:induction false} FirstFailureAppend(a: seq<ComponentInfo>, b: seq<ComponentInfo>)
    ensures FirstFailure(a + b) ==
      match FirstFailure(a)
      case Some(f) => Some(f)
      case None =>
        match FirstFailure(b)
        case None => None
        case Some(f) => Some(JointFailure(|a| + f.index, f.error))
  {
    if a != [] {
      assert (a + b)[1..] == a[1..] + b;
      FirstFailureAppend(a[1..], b);
    } else {
      assert a + b == b;
    }
  }

  // ----- The code as written at line 75 -----

  /**
   * The code as written reaches the read of `state_interfaces[0]` once the
   * three checks before it pass; none of them bounds the state-interface count
   * of a joint that is not a wheel. These are exactly the joints CheckJoint
   * does not reject with one of its first three errors.
   */
  predicate ReachesFirstStateRead(j: ComponentInfo)
    ensures ReachesFirstStateRead(j) <==>
      (CheckJoint(j).None? ||
       !(CheckJoint(j).value.CommandInterfaceCount? ||
         CheckJoint(j).value.WheelCommandNotVelocity? ||
         CheckJoint(j).value.WheelStateInterfaceCount?))
  {
    && |j.commandInterfaces| == 1
    && (IsWheel(j.name) ==> j.commandInterfaces[0].name == VelocityInterface)
    && (IsWheel(j.name) ==> |j.stateInterfaces| == 2)
  }

  /**
   * The if-chain of one loop iteration exactly as written. Its precondition is
   * what the code silently assumes: a joint that gets as far as the read of
   * `state_interfaces[0]` has at least one state interface.
   */
  function CheckJointAsWritten(j: ComponentInfo): (r: Option<InitError>)
    requires ReachesFirstStateRead(j) ==> 0 < |j.stateInterfaces|
    ensures r.None? <==> WellFormedJoint(j)
  {
    if |j.commandInterfaces| != 1 then
      Some(CommandInterfaceCount(j.name, |j.commandInterfaces|))
    else if IsWheel(j.name) && j.commandInterfaces[0].name != VelocityInterface then
      Some(WheelCommandNotVelocity(j.name, j.commandInterfaces[0].name))
    else if IsWheel(j.name) && |j.stateInterfaces| != 2 then
      Some(WheelStateInterfaceCount(j.name, |j.stateInterfaces|))
    else if j.stateInterfaces[0].name != PositionInterface then
      Some(FirstStateNotPosition(j.name, j.stateInterfaces[0].name))
    else if IsWheel(j.name) && j.stateInterfaces[1].name != VelocityInterface then
      Some(WheelSecondStateNotVelocity(j.name, j.stateInterfaces[1].name))
    else
      None
  }

  /**
   * The correction changes nothing else: on every joint the code as written
   * handles without reading past the end of a list, CheckJoint gives its result.
   */
  lemma CorrectionAgreesWithCodeAsWritten(j: ComponentInfo)
    requires ReachesFirstStateRead(j) ==> 0 < |j.stateInterfaces|
    ensures CheckJoint(j) == CheckJointAsWritten(j)
  {
  }

  /** A position-commanded arm joint with no state interface reaches the unguarded read. */
  lemma FirstStateReadUnguarded()
    ensures var j := ComponentInfo("arm_joint", [InterfaceInfo(PositionInterface)], []);
            ReachesFirstStateRead(j) && |j.stateInterfaces| == 0
  {
    Strings.LacksFirstChar("arm_joint", "wheel");
  }

  /** For a wheel joint the read is in bounds: the count check before it guarantees two entries. */
  lemma WheelFirstStateReadInBounds(j: ComponentInfo)
    requires ReachesFirstStateRead(j) && IsWheel(j.name)
    ensures 0 < |j.stateInterfaces|
  {
  }

  /** Every joint that reaches the read with an empty list is rejected with NoStateInterfaces ... */
  lemma MissingStateInterfacesReported(j: ComponentInfo)
    requires ReachesFirstStateRead(j) && |j.stateInterfaces| == 0
    ensures CheckJoint(j) == Some(NoStateInterfaces(j.name))
  {
  }

  /** ... and NoStateInterfaces is reported for no other joint. */
  lemma NoStateInterfacesOnlyAtUnguardedRead(j: ComponentInfo)
    requires CheckJoint(j).Some? && CheckJoint(j).value.NoStateInterfaces?
    ensures ReachesFirstStateRead(j) && |j.stateInterfaces| == 0
  {
  }
}
