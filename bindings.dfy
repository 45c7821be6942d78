/** The buffer wiring of the compute passes: which GPU buffer each bind
    group puts at each binding, and how the ping-pong flag picks a group. */
module Bindings {

  datatype BufferId = GridBuffer | DistanceBufferPing | DistanceBufferPong | FlowfieldBuffer | UniformBuffer

  /** The two distance buffers, as roles. */
  datatype Slot = Ping | Pong

  function SlotBuffer(s: Slot): BufferId
  {
    match s
    case Ping => DistanceBufferPing
    case Pong => DistanceBufferPong
  }

  /** A bind group: `entries[b]` is the buffer bound at binding `b`.
      Binding 0 is the grid, 1 the kernel's input, 2 its output, 3 the uniforms. */
  datatype BindGroup = BindGroup(entries: seq<BufferId>)
  {
    predicate WellFormed() { |entries| == 4 }
    function Input(): BufferId requires WellFormed() { entries[1] }
    function Output(): BufferId requires WellFormed() { entries[2] }
  }

  /** `bfsPing`: reads Ping, writes Pong. */
  function BfsPing(): (g: BindGroup)
    ensures g.WellFormed()
  {
    BindGroup([GridBuffer, DistanceBufferPing, DistanceBufferPong, UniformBuffer])
  }

  /** `bfsPong`: reads Pong, writes Ping. */
  function BfsPong(): (g: BindGroup)
    ensures g.WellFormed()
  {
    BindGroup([GridBuffer, DistanceBufferPong, DistanceBufferPing, UniformBuffer])
  }

  /** The static `gradient` group: reads Ping, writes the flowfield. */
  function StaticGradient(): (g: BindGroup)
    ensures g.WellFormed()
  {
    BindGroup([GridBuffer, DistanceBufferPing, FlowfieldBuffer, UniformBuffer])
  }

  /** `getGradientBindGroup(usesPingPong)`. */
  function GradientGroup(usesPingPong: bool): (g: BindGroup)
    ensures g.WellFormed()
    ensures g.Output() == FlowfieldBuffer
    ensures g.Input() == SlotBuffer(ObservedSlot(usesPingPong))
  {
    var input := if usesPingPong then DistanceBufferPong else DistanceBufferPing;
    BindGroup([GridBuffer, input, FlowfieldBuffer, UniformBuffer])
  }

  /** The propagation group the driver dispatches for a flag value. */
  function BfsGroup(usesPingPong: bool): (g: BindGroup)
    ensures g.WellFormed()
  {
    if usesPingPong then BfsPing() else BfsPong()
  }

  /** The slot a propagation dispatch reads. */
  function SourceSlot(usesPingPong: bool): (s: Slot)
    ensures SlotBuffer(s) == BfsGroup(usesPingPong).Input()
  {
    if usesPingPong then Ping else Pong
  }

  /** The slot a propagation dispatch writes. */
  function TargetSlot(usesPingPong: bool): (s: Slot)
    ensures SlotBuffer(s) == BfsGroup(usesPingPong).Output()
    ensures s != SourceSlot(usesPingPong)
  {
    if usesPingPong then Pong else Ping
  }

  /** The slot the gradient pass, the distance renderer, the convergence
      check and the range estimator all read for a flag value, as written:
      `usesPingPong ? Pong : Ping`. */
  function ObservedSlot(usesPingPong: bool): (s: Slot)
    ensures s == TargetSlot(usesPingPong)
  {
    if usesPingPong then Pong else Ping
  }

  /** The slot holding the output of the dispatch that ran just before the
      flag was flipped to `usesPingPong`: the freshly written buffer. */
  function FreshSlot(usesPingPong: bool): (s: Slot)
    ensures s == TargetSlot(!usesPingPong)
    ensures s == SourceSlot(usesPingPong)
  {
    if usesPingPong then Ping else Pong
  }

  /** Every group binds the grid at 0 and the uniforms at 3. */
  lemma SharedBindings(usesPingPong: bool)
    ensures forall g :: g in {BfsPing(), BfsPong(), StaticGradient(), GradientGroup(usesPingPong)} ==>
      g.entries[0] == GridBuffer && g.entries[3] == UniformBuffer
  {
  }

  /** No propagation dispatch reads the buffer it writes. */
  lemma BfsNeverReadsOwnOutput(usesPingPong: bool)
    ensures BfsGroup(usesPingPong).Input() != BfsGroup(usesPingPong).Output()
    ensures BfsGroup(usesPingPong).Output() == SlotBuffer(TargetSlot(usesPingPong))
  {
  }

  /** Two consecutive dispatches chain: the second reads what the first wrote. */
  lemma DispatchesChain(usesPingPong: bool)
    ensures BfsGroup(!usesPingPong).Input() == BfsGroup(usesPingPong).Output()
  {
  }

  /** As written, after a dispatch with flag `u` and the flip to `!u`, the
      gradient pass reads the buffer that dispatch READ, never the one it
      wrote: every observer lags the propagation by one step. */
  lemma GradientReadsDispatchSource(u: bool)
    ensures GradientGroup(!u).Input() == BfsGroup(u).Input()
    ensures GradientGroup(!u).Input() != BfsGroup(u).Output()
  {
  }

  /** Corrected selection: after the flip, `FreshSlot` is the buffer the
      dispatch just wrote. */
  lemma FreshSlotIsDispatchOutput(u: bool)
    ensures SlotBuffer(FreshSlot(!u)) == BfsGroup(u).Output()
    ensures FreshSlot(!u) != ObservedSlot(!u)
  {
  }
}
