/** What a sweep observes, `internal/sweep/report.go`: one sample for each step it takes. */
module Samples {
  datatype Phase = Baseline | Engaged | Active | Disengaged

  datatype Sample = Sample(phase: Phase, step: string, workspaces: int, goroutines: int, heapBytes: nat)
}
