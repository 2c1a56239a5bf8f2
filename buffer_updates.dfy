/**
 * What on_init, on_activate and write do to the plugin's per-joint buffers,
 * stated on values: the positions, velocities and commands buffers side by side.
 */
module BufferUpdates {
  import opened Values
  import opened HardwareInfo

  /** The contents of `hw_positions_`, `hw_velocities_` and `hw_commands_`. */
  datatype Buffers = Buffers(positions: seq<Value>, velocities: seq<Value>, commands: seq<Value>)

  /** All three buffers have one slot per joint. */
  predicate Aligned(b: Buffers, n: nat) {
    |b.positions| == n && |b.velocities| == n && |b.commands| == n
  }

  /** `n` quiet NaNs. */
  function NaNs(n: nat): (r: seq<Value>)
    ensures |r| == n && forall i :: 0 <= i < n ==> IsNaN(r[i])
  {
    seq(n, _ => NaN)
  }

  /** `n` zeros. */
  function Zeros(n: nat): (r: seq<Value>)
    ensures |r| == n && forall i :: 0 <= i < n ==> r[i] == Zero
  {
    seq(n, _ => Zero)
  }

  /**
   * `std::vector::resize(n, NaN)`: the first entries are kept, the vector is cut
   * to `n` or padded with NaN up to `n`.
   */
  function Resized(s: seq<Value>, n: nat): (r: seq<Value>)
    ensures |r| == n
    ensures forall i :: 0 <= i < n ==> r[i] == if i < |s| then s[i] else NaN
  {
    if n <= |s| then s[..n] else s + NaNs(n - |s|)
  }

  /** A buffer that starts out empty, as in a newly constructed plugin, is all NaN after on_init. */
  lemma ResizedFromEmpty(n: nat)
    ensures Resized([], n) == NaNs(n)
  {
  }

  /** on_activate's default for one joint: a NaN position sets position, velocity and command to zero. */
  function ActivatedSlot(b: Buffers, i: nat): (r: (Value, Value, Value))
    requires i < |b.positions| && i < |b.velocities| && i < |b.commands|
    ensures !IsNaN(r.0)
    ensures !IsNaN(b.positions[i]) ==> r == (b.positions[i], b.velocities[i], b.commands[i])
  {
    if IsNaN(b.positions[i]) then (Zero, Zero, Zero)
    else (b.positions[i], b.velocities[i], b.commands[i])
  }

  /** The buffers after on_activate. */
  function Activated(b: Buffers): (r: Buffers)
    requires Aligned(b, |b.positions|)
    ensures Aligned(r, |b.positions|)
    ensures forall i :: 0 <= i < |b.positions| ==> (r.positions[i], r.velocities[i], r.commands[i]) == ActivatedSlot(b, i)
  {
    var n := |b.positions|;
    Buffers(
      seq(n, i requires 0 <= i < n => ActivatedSlot(b, i).0),
      seq(n, i requires 0 <= i < n => ActivatedSlot(b, i).1),
      seq(n, i requires 0 <= i < n => ActivatedSlot(b, i).2))
  }

  /**
   * After on_activate no position is NaN: a joint whose position was NaN has
   * position, velocity and command zero, and a joint that had a position keeps
   * all its values.
   */
  lemma ActivatedDefined(b: Buffers, i: nat)
    requires Aligned(b, |b.positions|) && i < |b.positions|
    ensures !IsNaN(Activated(b).positions[i])
    ensures IsNaN(b.positions[i]) ==>
      && Activated(b).positions[i] == Zero
      && Activated(b).velocities[i] == Zero
      && Activated(b).commands[i] == Zero
    ensures !IsNaN(b.positions[i]) ==>
      && Activated(b).positions[i] == b.positions[i]
      && Activated(b).velocities[i] == b.velocities[i]
      && Activated(b).commands[i] == b.commands[i]
  {
  }

  /** Running on_activate twice leaves the buffers as running it once does. */
  lemma ActivateIdempotent(b: Buffers)
    requires Aligned(b, |b.positions|)
    ensures Activated(Activated(b)) == Activated(b)
  {
    var once := Activated(b);
    var twice := Activated(once);
    forall i | 0 <= i < |b.positions|
      ensures twice.positions[i] == once.positions[i]
      ensures twice.velocities[i] == once.velocities[i]
      ensures twice.commands[i] == once.commands[i]
    {
      assert !IsNaN(once.positions[i]);
    }
  }

  /** Activating the buffers on_init leaves behind sets every joint to zero. */
  lemma ActivateAfterInit(n: nat)
    ensures Activated(Buffers(NaNs(n), NaNs(n), NaNs(n))) == Buffers(Zeros(n), Zeros(n), Zeros(n))
  {
    var r := Activated(Buffers(NaNs(n), NaNs(n), NaNs(n)));
    assert r.positions == Zeros(n);
    assert r.velocities == Zeros(n);
    assert r.commands == Zeros(n);
  }

  /** write's update of one command: negated for a right-wheel joint, kept otherwise. */
  function WrittenCommand(c: Value, name: string): (r: Value)
    ensures IsNaN(r) <==> IsNaN(c)
    ensures !IsRightWheel(name) ==> r == c
    ensures IsRightWheel(name) ==> Neg(r) == c
  {
    if IsRightWheel(name) then Neg(c) else c
  }

  /** The buffers after write, for joints named `names`. */
  function Written(b: Buffers, names: seq<string>): (r: Buffers)
    requires Aligned(b, |names|)
    ensures Aligned(r, |names|)
    ensures r.positions == b.positions
    ensures r.velocities == r.commands
    ensures forall i :: 0 <= i < |names| ==> r.commands[i] == WrittenCommand(b.commands[i], names[i])
  {
    var cs := seq(|names|, i requires 0 <= i < |names| => WrittenCommand(b.commands[i], names[i]));
    Buffers(b.positions, cs, cs)
  }

  /**
   * write stores the sign-flipped command back into the commands buffer, so a
   * second write restores every command and leaves velocities equal to them.
   */
  lemma WriteTwiceRestoresCommands(b: Buffers, names: seq<string>)
    requires Aligned(b, |names|)
    ensures Written(Written(b, names), names) == Buffers(b.positions, b.commands, b.commands)
  {
    var twice := Written(Written(b, names), names);
    forall i | 0 <= i < |names| ensures twice.commands[i] == b.commands[i] {
      NegInvolutive(b.commands[i]);
    }
  }

  /** Only right-wheel joints see their command change, and NaN commands stay NaN. */
  lemma WrittenCommandsChange(b: Buffers, names: seq<string>, i: nat)
    requires Aligned(b, |names|) && i < |names|
    ensures !IsRightWheel(names[i]) ==> Written(b, names).commands[i] == b.commands[i]
    ensures IsRightWheel(names[i]) ==> Written(b, names).commands[i] == Neg(b.commands[i])
    ensures IsNaN(Written(b, names).commands[i]) <==> IsNaN(b.commands[i])
  {
  }

  /** write never touches positions, so positions defined by on_activate stay defined. */
  lemma WriteKeepsActivatedPositions(b: Buffers, names: seq<string>, i: nat)
    requires Aligned(b, |names|) && i < |names|
    ensures !IsNaN(Written(Activated(b), names).positions[i])
  {
    ActivatedDefined(b, i);
  }
}
