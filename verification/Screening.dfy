// aegis/screening/provider.py: what a screening provider answers, and the one
// that answers from a recording.
module Screening {
  import opened Wrappers

  datatype Candidate = Candidate(entityId: string, name: string, score: real, listName: string, isPep: bool,
                                 kind: string)

  // `generatedAt` is None for static data.
  datatype Provenance = Provenance(provider: string, dataset: string, datasetVersion: string, generatedAt: Option<real>)

  // ScreeningUnavailable is handled by the pipeline; any other exception is not.
  datatype Answer<T> = Got(value: T) | Unavailable(message: string) | Failure(message: string)

  // Any provider: what it answers may depend on a state that each call moves.
  datatype Provider<!S> = Provider(
    provenance: S -> (S, Answer<Provenance>),
    screen: (S, string) -> (S, Answer<seq<Candidate>>))

  class Screener<S> {
    const provider: Provider<S>
    var state: S

    constructor (provider: Provider<S>, state: S)
      ensures this.provider == provider && this.state == state
    {
      this.provider, this.state := provider, state;
    }

    method ListProvenance() returns (answer: Answer<Provenance>)
      modifies this
      ensures (state, answer) == provider.provenance(old(state))
    {
      var r := provider.provenance(state);
      state, answer := r.0, r.1;
    }

    method Screen(name: string) returns (answer: Answer<seq<Candidate>>)
      modifies this
      ensures (state, answer) == provider.screen(old(state), name)
    {
      var r := provider.screen(state, name);
      state, answer := r.0, r.1;
    }
  }

  // ---- The recorded provider ----

  datatype Recording = Recording(
    provenance: Option<Provenance>, queries: map<string, seq<Candidate>>, error: Option<string>)

  function ErrorOr(recording: Recording, otherwise: string): string {
    if recording.error.Some? && recording.error.value != "" then recording.error.value else otherwise
  }

  // Its answers never change, so its state is empty.
  function Recorded(recording: Recording): Provider<()> {
    Provider(
      (s: ()) => ((), if recording.provenance.Some? then Got(recording.provenance.value)
                      else Unavailable(ErrorOr(recording, "no screening provenance recorded for this decision"))),
      (s: (), name: string) => ((), if name in recording.queries then Got(recording.queries[name])
                                    else Unavailable(ErrorOr(recording, "no recorded screening responses"))))
  }
}
