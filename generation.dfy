/** Neutrino event generation: the flavour ratio and the choice of particle
    type, the base generator's attempt loop with Earth shadowing, the list
    generator's cyclic state machine, the file generator's event counts and
    the rectangular volume's entry and exit points. Random draws, the
    weights of the Earth model and the contents of files are parameters. */
module Generation {
  import opened Common
  import opened ArrayOps

  /** `Particle.Type`: the six neutrino kinds a generator produces. */
  datatype ParticleType =
    | ElectronNeutrino | ElectronAntineutrino
    | MuonNeutrino | MuonAntineutrino
    | TauNeutrino | TauAntineutrino

  datatype Flavour = Electron | Muon | Tau

  function FlavourOf(k: ParticleType): Flavour {
    match k
    case ElectronNeutrino | ElectronAntineutrino => Electron
    case MuonNeutrino | MuonAntineutrino => Muon
    case TauNeutrino | TauAntineutrino => Tau
  }

  predicate IsAntiparticle(k: ParticleType) {
    k.ElectronAntineutrino? || k.MuonAntineutrino? || k.TauAntineutrino?
  }

  /** The share of neutrinos (rather than antineutrinos) of each flavour. */
  function NeutrinoShare(f: Flavour): real {
    if f == Electron then 0.78 else 0.61
  }

  /** A point or direction in the ice, in metres. */
  datatype Vec3 = Vec3(x: real, y: real, z: real)
  {
    function At(i: nat): real
      requires i < 3
    {
      if i == 0 then x else if i == 1 then y else z
    }

    function Plus(o: Vec3): Vec3 {
      Vec3(x + o.x, y + o.y, z + o.z)
    }

    function Times(c: real): Vec3 {
      Vec3(x * c, y * c, z * c)
    }
  }

  datatype Particle = Particle(kind: ParticleType, vertex: Vec3, direction: Vec3, energy: real,
                               survivalWeight: real, interactionWeight: real)

  /** An event: the tree of particles, as its list of root particles. */
  datatype Event = Event(roots: seq<Particle>)

  // ---------------------------------------------------------------------
  // Flavour ratio and particle type

  /** `np.array(flavor_ratio) / np.sum(flavor_ratio)`; a ratio summing to
      zero would hold inf or NaN and is reported as `NonFinite`. */
  function NormalizeRatio(flavorRatio: seq<real>): (r: Result<seq<real>>)
    ensures r.Err? <==> Sum(flavorRatio) == 0.0
    ensures r.Ok? ==> |r.value| == |flavorRatio|
    ensures r.Ok? ==> forall i :: 0 <= i < |flavorRatio| ==> r.value[i] * Sum(flavorRatio) == flavorRatio[i]
  {
    var total := Sum(flavorRatio);
    if total == 0.0 then Err(NonFinite) else Ok(Divided(flavorRatio, total))
  }

  function Divided(s: seq<real>, c: real): (r: seq<real>)
    requires c != 0.0
    ensures |r| == |s|
  {
    seq(|s|, i requires 0 <= i < |s| => s[i] / c)
  }

  lemma {:induction false} SumDivided(s: seq<real>, c: real)
    requires c != 0.0
    ensures Sum(Divided(s, c)) == Sum(s) / c
  {
    if |s| > 0 {
      assert Divided(s, c)[1..] == Divided(s[1..], c);
      SumDivided(s[1..], c);
    }
  }

  /** The normalised ratio sums to 1. */
  lemma RatioSumsToOne(flavorRatio: seq<real>)
    requires NormalizeRatio(flavorRatio).Ok?
    ensures Sum(NormalizeRatio(flavorRatio).value) == 1.0
  {
    var total := Sum(flavorRatio);
    SumDivided(flavorRatio, total);
    assert total / total == 1.0;
  }

  lemma SumOfThree(s: seq<real>)
    requires |s| == 3
    ensures Sum(s) == s[0] + s[1] + s[2]
  {
    var t := s[2..];
    assert t[1..] == [];
    assert Sum(t) == s[2];
    assert s[1..][1..] == t;
    assert Sum(s[1..]) == s[1] + s[2];
  }

  /** `get_particle_type` with its two uniform draws `rFlavour` and `rNu`
      given: the flavour by cumulative ratio thresholds, then neutrino or
      antineutrino by the flavour's neutrino share. A ratio too short for
      the comparison made raises `IndexError`. */
  function GetParticleType(ratio: seq<real>, rFlavour: real, rNu: real): (r: Result<ParticleType>)
    ensures r.Err? ==> r.error == IndexError
    ensures (r.Ok? && FlavourOf(r.value) == Electron) <==> |ratio| >= 1 && rFlavour < ratio[0]
    ensures (r.Ok? && FlavourOf(r.value) == Muon)
              <==> |ratio| >= 2 && ratio[0] <= rFlavour < ratio[0] + ratio[1]
    ensures (r.Ok? && FlavourOf(r.value) == Tau)
              <==> |ratio| >= 2 && ratio[0] <= rFlavour && ratio[0] + ratio[1] <= rFlavour
    ensures r.Ok? ==> (IsAntiparticle(r.value) <==> rNu >= NeutrinoShare(FlavourOf(r.value)))
  {
    if |ratio| == 0 then Err(IndexError)
    else if rFlavour < ratio[0] then
      Ok(if rNu < 0.78 then ElectronNeutrino else ElectronAntineutrino)
    else if |ratio| < 2 then Err(IndexError)
    else if rFlavour < ratio[0] + ratio[1] then
      Ok(if rNu < 0.61 then MuonNeutrino else MuonAntineutrino)
    else
      Ok(if rNu < 0.61 then TauNeutrino else TauAntineutrino)
  }

  /** For a normalised three-flavour ratio with no negative share every
      draw in [0, 1) gives a particle, and the draws giving each flavour
      form intervals whose lengths are the three shares. */
  lemma FlavourIntervals(flavorRatio: seq<real>, rFlavour: real, rNu: real)
    requires |flavorRatio| == 3 && forall i :: 0 <= i < 3 ==> flavorRatio[i] >= 0.0
    requires NormalizeRatio(flavorRatio).Ok?
    requires 0.0 <= rFlavour < 1.0
    ensures var ratio := NormalizeRatio(flavorRatio).value;
      && GetParticleType(ratio, rFlavour, rNu).Ok?
      && 0.0 <= ratio[0] <= ratio[0] + ratio[1] <= 1.0
      && 1.0 - (ratio[0] + ratio[1]) == ratio[2]
  {
    var ratio := NormalizeRatio(flavorRatio).value;
    var total := Sum(flavorRatio);
    RatioSumsToOne(flavorRatio);
    SumOfThree(ratio);
    SumOfThree(flavorRatio);
    forall i | 0 <= i < 3
      ensures ratio[i] >= 0.0
    {
      assert ratio[i] == flavorRatio[i] / total;
    }
  }

  // ---------------------------------------------------------------------
  // BaseGenerator

  /** The `energy` argument: a callable, a number, or something else. */
  datatype EnergyArg = Callable | Number(e: real) | NotANumber

  /** Everything one attempt of `create_event` draws: the vertex, direction
      and (for a callable) energy from the subclass, the two uniform draws
      of `get_particle_type`, the weights of the Earth model and the uniform
      draw compared with the survival weight when shadowing. */
  datatype Draw = Draw(vertex: Vec3, direction: Vec3, energy: real, rFlavour: real, rNu: real,
                       survivalWeight: real, interactionWeight: real, rShadow: real)

  /** How a run of attempts ended: `None` when the draws ran out before an
      event was produced or an exception raised, and the number of attempts. */
  datatype Outcome = Outcome(result: Option<Result<Event>>, attempts: nat)

  /** The particle an attempt builds, before its weights are set. */
  function Attempted(kind: ParticleType, d: Draw, fixedEnergy: Option<real>, survival: real): Particle {
    Particle(kind, d.vertex, d.direction, if fixedEnergy.Some? then fixedEnergy.value else d.energy,
             survival, d.interactionWeight)
  }

  /** An attempt is shadowed when shadowing is on and its draw is not below
      the survival weight. */
  predicate Shadowed(shadow: bool, d: Draw) {
    shadow && !(d.rShadow < d.survivalWeight)
  }

  /** What `create_event` returns, attempt by attempt. */
  function CreateOutcome(ratio: Result<seq<real>>, shadow: bool, fixedEnergy: Option<real>,
                         draws: seq<Draw>): (r: Outcome)
    ensures r.attempts <= |draws|
    ensures r.result.None? <==>
              forall j :: 0 <= j < |draws| ==>
                ratio.Ok? && GetParticleType(ratio.value, draws[j].rFlavour, draws[j].rNu).Ok? && Shadowed(shadow, draws[j])
    ensures r.result.None? ==> r.attempts == |draws|
    ensures r.result.Some? ==> r.attempts >= 1
    ensures r.result.Some? && r.result.value.Ok? ==>
              var d := draws[r.attempts - 1];
              && ratio.Ok?
              && GetParticleType(ratio.value, d.rFlavour, d.rNu).Ok?
              && !Shadowed(shadow, d)
              && r.result.value.value == Event([Attempted(GetParticleType(ratio.value, d.rFlavour, d.rNu).value, d,
                                                          fixedEnergy, if shadow then 1.0 else d.survivalWeight)])
    ensures forall j :: 0 <= j < r.attempts - 1 ==> Shadowed(shadow, draws[j])
    decreases |draws|
  {
    if |draws| == 0 then Outcome(None, 0)
    else
      var d := draws[0];
      if ratio.Err? then Outcome(Some(Err(ratio.error)), 1)
      else
        match GetParticleType(ratio.value, d.rFlavour, d.rNu)
        case Err(e) => Outcome(Some(Err(e)), 1)
        case Ok(kind) =>
          if !shadow then Outcome(Some(Ok(Event([Attempted(kind, d, fixedEnergy, d.survivalWeight)]))), 1)
          else if d.rShadow < d.survivalWeight then Outcome(Some(Ok(Event([Attempted(kind, d, fixedEnergy, 1.0)]))), 1)
          else
            var rest := CreateOutcome(ratio, shadow, fixedEnergy, draws[1..]);
            Outcome(rest.result, rest.attempts + 1)
  }

  /** The base generator's state: the number of attempts so far, whether
      the Earth shadows particles, and the normalised flavour ratio. */
  class BaseGenerator {
    var count: int
    const shadow: bool
    const ratio: Result<seq<real>>
    /** The energy of every particle, or `None` for a callable drawn per attempt. */
    const fixedEnergy: Option<real>

    constructor(fixedEnergy: Option<real>, shadow: bool, flavorRatio: seq<real>)
      ensures count == 0 && this.shadow == shadow && this.fixedEnergy == fixedEnergy
      ensures ratio == NormalizeRatio(flavorRatio)
    {
      this.fixedEnergy := fixedEnergy;
      this.shadow := shadow;
      ratio := NormalizeRatio(flavorRatio);
      count := 0;
    }

    /** `create_event`: every attempt raises `count` by one, shadowed
        attempts included, and a shadowed attempt is retried. */
    method CreateEvent(draws: seq<Draw>) returns (r: Option<Result<Event>>)
      modifies this
      ensures r == CreateOutcome(ratio, shadow, fixedEnergy, draws).result
      ensures count == old(count) + CreateOutcome(ratio, shadow, fixedEnergy, draws).attempts
      decreases |draws|
    {
      if |draws| == 0 {
        return None;
      }
      count := count + 1;
      var d := draws[0];
      if ratio.Err? {
        return Some(Err(ratio.error));
      }
      var kind := GetParticleType(ratio.value, d.rFlavour, d.rNu);
      if kind.Err? {
        return Some(Err(kind.error));
      }
      if !shadow {
        r := Some(Ok(Event([Attempted(kind.value, d, fixedEnergy, d.survivalWeight)])));
      } else if d.rShadow < d.survivalWeight {
        r := Some(Ok(Event([Attempted(kind.value, d, fixedEnergy, 1.0)])));
      } else {
        r := CreateEvent(draws[1..]);
      }
    }
  }

  /** `BaseGenerator.__init__`: a number becomes a constant energy, a
      callable is drawn per attempt, anything else is refused. */
  method NewBaseGenerator(energy: EnergyArg, shadow: bool, flavorRatio: seq<real>)
    returns (r: Result<BaseGenerator>)
    ensures energy.NotANumber? <==> r.Err?
    ensures r.Err? ==> r.error == ValueError
    ensures r.Ok? ==>
              && fresh(r.value) && r.value.count == 0 && r.value.shadow == shadow
              && r.value.ratio == NormalizeRatio(flavorRatio)
              && r.value.fixedEnergy == (if energy.Number? then Some(energy.e) else None)
  {
    match energy
    case NotANumber => r := Err(ValueError);
    case Callable =>
      var g := new BaseGenerator(None, shadow, flavorRatio);
      r := Ok(g);
    case Number(e) =>
      var g := new BaseGenerator(Some(e), shadow, flavorRatio);
      r := Ok(g);
  }

  /** Without shadowing the first attempt always ends the call, and its
      particle carries both weights of the Earth model. */
  lemma UnshadowedCopiesWeights(ratio: seq<real>, fixedEnergy: Option<real>, draws: seq<Draw>)
    requires |draws| >= 1
    requires GetParticleType(ratio, draws[0].rFlavour, draws[0].rNu).Ok?
    ensures var o := CreateOutcome(Ok(ratio), false, fixedEnergy, draws);
      && o.attempts == 1 && o.result.Some? && o.result.value.Ok?
      && |o.result.value.value.roots| == 1
      && o.result.value.value.roots[0].survivalWeight == draws[0].survivalWeight
      && o.result.value.value.roots[0].interactionWeight == draws[0].interactionWeight
  {
  }

  /** With shadowing, the first draw below its survival weight is the one
      accepted after all earlier attempts were shadowed; its particle has
      survival weight 1 and keeps its interaction weight. */
  lemma {:induction false} ShadowedRetries(ratio: seq<real>, fixedEnergy: Option<real>, draws: seq<Draw>, k: nat)
    requires k < |draws|
    requires forall j :: 0 <= j <= k ==> GetParticleType(ratio, draws[j].rFlavour, draws[j].rNu).Ok?
    requires forall j :: 0 <= j < k ==> Shadowed(true, draws[j])
    requires !Shadowed(true, draws[k])
    ensures var o := CreateOutcome(Ok(ratio), true, fixedEnergy, draws);
      && o.attempts == k + 1 && o.result.Some? && o.result.value.Ok?
      && |o.result.value.value.roots| == 1
      && o.result.value.value.roots[0].survivalWeight == 1.0
      && o.result.value.value.roots[0].interactionWeight == draws[k].interactionWeight
    decreases k
  {
    if k > 0 {
      ShadowedRetries(ratio, fixedEnergy, draws[1..], k - 1);
    }
  }

  // ---------------------------------------------------------------------
  // ListGenerator

  /** An entry of the list given to `ListGenerator`. */
  datatype Entry = EventEntry(event: Event) | ParticleEntry(particle: Particle)

  /** The `events` argument: an iterable of entries, or a lone value. */
  datatype EventsArg = Entries(entries: seq<Entry>) | Lone(entry: Entry)

  function EntriesOf(arg: EventsArg): (r: seq<Entry>)
    ensures arg.Lone? ==> r == [arg.entry]
  {
    if arg.Entries? then arg.entries else [arg.entry]
  }

  /** A particle entry is wrapped into an event of its own. */
  function AsEvent(e: Entry): Event {
    if e.EventEntry? then e.event else Event([e.particle])
  }

  /** The list generator's state as a value. */
  datatype ListState = ListState(events: seq<Event>, loop: bool, index: nat, additionalCounts: int)
  {
    function Count(): int {
      index + additionalCounts
    }
  }

  /** One call of `ListGenerator.create_event`. */
  function ListNext(s: ListState): (r: (ListState, Result<Event>))
    ensures !s.loop && s.index >= |s.events| ==> r == (s, Err(StopIteration))
    ensures !(!s.loop && s.index >= |s.events|) ==>
              && r.0 == s.(index := s.index + 1)
              && r.1 == (if |s.events| == 0 then Err(ZeroDivisionError) else Ok(s.events[s.index % |s.events|]))
    ensures r.1.Ok? ==> r.0.Count() == s.Count() + 1
  {
    if !s.loop && s.index >= |s.events| then (s, Err(StopIteration))
    else
      var s' := s.(index := s.index + 1);
      if |s.events| == 0 then (s', Err(ZeroDivisionError))
      else (s', Ok(s.events[(s'.index - 1) % |s.events|]))
  }

  /** The results of `k` consecutive calls, and the state after them. */
  function ListCalls(s: ListState, k: nat): (r: (ListState, seq<Result<Event>>))
    ensures |r.1| == k
    decreases k
  {
    if k == 0 then (s, [])
    else
      var (s', e) := ListNext(s);
      var (s'', es) := ListCalls(s', k - 1);
      (s'', [e] + es)
  }

  /** A looping generator over a non-empty list hands out the events in
      cyclic order: call j (from 0) returns `events[(index + j) mod n]`. */
  lemma {:induction false} LoopingCycles(s: ListState, k: nat)
    requires s.loop && |s.events| > 0
    ensures ListCalls(s, k).0 == s.(index := s.index + k)
    ensures forall j :: 0 <= j < k ==> ListCalls(s, k).1[j] == Ok(s.events[(s.index + j) % |s.events|])
    decreases k
  {
    if k > 0 {
      var s' := s.(index := s.index + 1);
      LoopingCycles(s', k - 1);
      forall j | 1 <= j < k
        ensures ListCalls(s, k).1[j] == Ok(s.events[(s.index + j) % |s.events|])
      {
        assert ListCalls(s, k).1[j] == ListCalls(s', k - 1).1[j - 1];
      }
    }
  }

  /** A non-looping generator past the end of its list raises
      `StopIteration` on every call and stays where it is. */
  lemma {:induction false} ExhaustedStops(s: ListState, k: nat)
    requires !s.loop && s.index >= |s.events|
    ensures ListCalls(s, k).0 == s
    ensures forall j :: 0 <= j < k ==> ListCalls(s, k).1[j] == Err(StopIteration)
    decreases k
  {
    if k > 0 {
      ExhaustedStops(s, k - 1);
      forall j | 1 <= j < k
        ensures ListCalls(s, k).1[j] == Err(StopIteration)
      {
        assert ListCalls(s, k).1[j] == ListCalls(s, k - 1).1[j - 1];
      }
    }
  }

  /** `ListGenerator`: a list of events handed out in order, cyclically
      when `loop` is set, and a count that may be overridden. */
  class ListGenerator {
    var events: seq<Event>
    var loop: bool
    var index: nat
    var additionalCounts: int

    function State(): ListState
      reads this
    {
      ListState(events, loop, index, additionalCounts)
    }

    /** The `count` property. */
    function Count(): (c: int)
      reads this
      ensures c == State().Count()
    {
      index + additionalCounts
    }

    /** `__init__`: a lone value becomes a one-element list, and every
        particle entry is replaced by an event holding it. */
    constructor(arg: EventsArg, loop: bool)
      ensures |events| == |EntriesOf(arg)|
      ensures forall i :: 0 <= i < |events| ==> events[i] == AsEvent(EntriesOf(arg)[i])
      ensures this.loop == loop && index == 0 && additionalCounts == 0
    {
      var entries := EntriesOf(arg);
      var converted: seq<Event> := [];
      for i := 0 to |entries|
        invariant |converted| == i
        invariant forall j :: 0 <= j < i ==> converted[j] == AsEvent(entries[j])
      {
        converted := converted + [AsEvent(entries[i])];
      }
      events := converted;
      this.loop := loop;
      index := 0;
      additionalCounts := 0;
    }

    /** The `count` setter: only the additional counts change. */
    method SetCount(c: int)
      modifies this
      ensures Count() == c
      ensures events == old(events) && loop == old(loop) && index == old(index)
    {
      additionalCounts := c - index;
    }

    /** `create_event`. */
    method CreateEvent() returns (r: Result<Event>)
      modifies this
      ensures (State(), r) == ListNext(old(State()))
    {
      if !loop && index >= |events| {
        return Err(StopIteration);
      }
      index := index + 1;
      if |events| == 0 {
        return Err(ZeroDivisionError);
      }
      r := Ok(events[(index - 1) % |events|]);
    }
  }

  // ---------------------------------------------------------------------
  // FileGenerator counts

  function SumInts(s: seq<int>): int {
    if |s| == 0 then 0 else s[0] + SumInts(s[1..])
  }

  /** Replacing one entry changes the sum by the difference. */
  lemma {:induction false} SumIntsUpdate(s: seq<int>, i: nat, v: int)
    requires i < |s|
    ensures SumInts(s[i := v]) == SumInts(s) - s[i] + v
  {
    if i > 0 {
      assert s[i := v][1..] == s[1..][i - 1 := v];
      SumIntsUpdate(s[1..], i - 1, v);
    }
  }

  /** An event read from a file, with the number of events thrown to get it. */
  datatype FileEvent = FileEvent(event: Event, thrown: int)

  /** What `_load_events` reads when the in-memory chunk is empty: whether
      the current file is exhausted (so the next file is opened) and the
      events of the next slice. */
  datatype Chunk = Chunk(nextFile: bool, events: seq<FileEvent>)

  /** `FileGenerator`'s bookkeeping: the per-file thrown counts (slot 0
      holds the adjustment made by the `count` setter, slot i+1 the count
      of file i), the index of the open file and the chunk in memory. */
  class FileGenerator {
    const nFiles: nat
    var fileCounts: seq<int>
    var fileIndex: nat
    var events: seq<FileEvent>

    ghost predicate Valid()
      reads this
    {
      |fileCounts| == nFiles + 1 && fileIndex <= nFiles
    }

    /** The `count` property. */
    function Count(): int
      reads this
    {
      SumInts(fileCounts)
    }

    /** `__init__` once its first `_load_events` has opened file 0. */
    constructor(nFiles: nat, first: seq<FileEvent>)
      requires nFiles >= 1
      ensures Valid() && this.nFiles == nFiles
      ensures fileCounts == seq(nFiles + 1, _ => 0) && fileIndex == 0 && events == first
      ensures Count() == 0
    {
      this.nFiles := nFiles;
      fileCounts := seq(nFiles + 1, _ => 0);
      fileIndex := 0;
      events := first;
      new;
      AllZeroSum(fileCounts);
    }

    /** The `count` setter: slot 0 absorbs the difference. */
    method SetCount(c: int)
      requires Valid()
      modifies this
      ensures Valid() && Count() == c
      ensures fileCounts == old(fileCounts)[0 := c - SumInts(old(fileCounts)[1..])]
      ensures fileIndex == old(fileIndex) && events == old(events)
    {
      fileCounts := fileCounts[0 := c - SumInts(fileCounts[1..])];
      assert fileCounts[1..] == old(fileCounts)[1..];
    }

    /** `create_event`: an empty chunk is first reloaded (opening the next
        file when the current one is exhausted; `_next_file` advances the
        file index before it raises `StopIteration` past the last file);
        then the first event is popped and its thrown count recorded for
        the open file. An empty slice makes the pop an `IndexError`. */
    method CreateEvent(load: Chunk) returns (r: Result<Event>)
      requires Valid() && fileIndex < nFiles
      modifies this
      ensures Valid()
      ensures |old(events)| > 0 ==>
                && r == Ok(old(events)[0].event) && events == old(events)[1..] && fileIndex == old(fileIndex)
                && fileCounts == old(fileCounts)[fileIndex + 1 := old(events)[0].thrown]
                && Count() == old(Count()) - old(fileCounts)[fileIndex + 1] + old(events)[0].thrown
      ensures |old(events)| == 0 && load.nextFile && old(fileIndex) + 1 >= nFiles ==>
                && r == Err(StopIteration) && fileIndex == old(fileIndex) + 1
                && events == old(events) && fileCounts == old(fileCounts)
      ensures |old(events)| == 0 && !(load.nextFile && old(fileIndex) + 1 >= nFiles) ==>
                fileIndex == old(fileIndex) + (if load.nextFile then 1 else 0)
      ensures |old(events)| == 0 && |load.events| == 0 && !(load.nextFile && old(fileIndex) + 1 >= nFiles) ==>
                r == Err(IndexError) && events == [] && fileCounts == old(fileCounts)
      ensures |old(events)| == 0 && |load.events| > 0 && !(load.nextFile && old(fileIndex) + 1 >= nFiles) ==>
                && r == Ok(load.events[0].event) && events == load.events[1..]
                && fileCounts == old(fileCounts)[fileIndex + 1 := load.events[0].thrown]
                && Count() == old(Count()) - old(fileCounts)[fileIndex + 1] + load.events[0].thrown
    {
      if |events| == 0 {
        if load.nextFile {
          fileIndex := fileIndex + 1;
          if fileIndex >= nFiles {
            return Err(StopIteration);
          }
        }
        events := load.events;
      }
      if |events| == 0 {
        return Err(IndexError);
      }
      SumIntsUpdate(fileCounts, fileIndex + 1, events[0].thrown);
      fileCounts := fileCounts[fileIndex + 1 := events[0].thrown];
      r := Ok(events[0].event);
      events := events[1..];
    }
  }

  /** `FileGenerator(files)`: with no files the first `_load_events` finds
      no file to open and `__init__` raises `StopIteration`; otherwise the
      generator starts on file 0 with its first chunk and a count of 0. */
  method NewFileGenerator(nFiles: nat, first: seq<FileEvent>) returns (r: Result<FileGenerator>)
    ensures r.Err? <==> nFiles == 0
    ensures r.Err? ==> r.error == StopIteration
    ensures r.Ok? ==>
              && fresh(r.value) && r.value.Valid() && r.value.nFiles == nFiles
              && r.value.fileIndex == 0 && r.value.events == first && r.value.Count() == 0
  {
    if nFiles == 0 {
      r := Err(StopIteration);
    } else {
      var g := new FileGenerator(nFiles, first);
      r := Ok(g);
    }
  }

  lemma {:induction false} AllZeroSum(s: seq<int>)
    requires forall i :: 0 <= i < |s| ==> s[i] == 0
    ensures SumInts(s) == 0
  {
    if |s| > 0 {
      AllZeroSum(s[1..]);
    }
  }

  // ---------------------------------------------------------------------
  // RectangularGenerator.get_exit_points

  /** The ice box: x in [-dx/2, dx/2], y in [-dy/2, dy/2], z in [-dz, 0]. */
  datatype Box = Box(dx: real, dy: real, dz: real)
  {
    function Low(i: nat): real
      requires i < 3
    {
      if i == 0 then -dx / 2.0 else if i == 1 then -dy / 2.0 else -dz
    }

    function High(i: nat): real
      requires i < 3
    {
      if i == 0 then dx / 2.0 else if i == 1 then dy / 2.0 else 0.0
    }

    /** Face `f` (0..5) lies on coordinate `f / 2`, at its low bound for
        even `f` and its high bound for odd `f`. */
    function Side(f: nat): real
      requires f < 6
    {
      if f % 2 == 0 then Low(f / 2) else High(f / 2)
    }
  }

  /** Where the particle's line meets the plane of face `f`. */
  function Intersection(box: Box, v: Vec3, d: Vec3, f: nat): Vec3
    requires f < 6 && d.At(f / 2) != 0.0
  {
    v.Plus(d.Times((box.Side(f) - v.At(f / 2)) / d.At(f / 2)))
  }

  /** A point within the box's bounds on every coordinate but `coord`. */
  predicate InsideOthers(box: Box, p: Vec3, coord: nat)
    requires coord < 3
  {
    forall i :: 0 <= i < 3 && i != coord ==> box.Low(i) <= p.At(i) <= box.High(i)
  }

  /** Face `f` is crossed: the direction is not parallel to it and the
      line meets it within the box. */
  predicate CrossedFace(box: Box, v: Vec3, d: Vec3, f: nat)
    requires f < 6
  {
    d.At(f / 2) != 0.0 && InsideOthers(box, Intersection(box, v, d, f), f / 2)
  }

  /** The line enters the box through face `f` when it moves inwards. */
  predicate EntersThrough(d: Vec3, f: nat)
    requires f < 6
  {
    (if f % 2 == 1 then 1.0 else -1.0) * d.At(f / 2) < 0.0
  }

  /** `p` is where the line crosses face `f`, entering or leaving as said. */
  predicate CrossingAt(box: Box, v: Vec3, d: Vec3, p: Vec3, f: nat, entering: bool)
    requires f < 6
  {
    CrossedFace(box, v, d, f) && p == Intersection(box, v, d, f) && (entering <==> EntersThrough(d, f))
  }

  /** The face loop from face `count` on, with the points found so far. */
  function ScanFaces(box: Box, v: Vec3, d: Vec3, count: nat, enter: Option<Vec3>, exit: Option<Vec3>)
    : (r: Result<(Vec3, Vec3)>)
    requires count <= 6
    ensures r.Err? ==> r.error == ValueError
    decreases 6 - count
  {
    if count == 6 then Err(ValueError)
    else
      var enter' := Met(box, v, d, count, true, enter);
      var exit' := Met(box, v, d, count, false, exit);
      if enter'.Some? && exit'.Some? then Ok((enter'.value, exit'.value))
      else ScanFaces(box, v, d, count + 1, enter', exit')
  }

  /** The entry (or exit) point known after face `f`: its intersection when
      the line crosses it in that sense, the point known before otherwise. */
  function Met(box: Box, v: Vec3, d: Vec3, f: nat, entering: bool, before: Option<Vec3>): Option<Vec3>
    requires f < 6
  {
    if CrossedFace(box, v, d, f) && (entering <==> EntersThrough(d, f)) then Some(Intersection(box, v, d, f))
    else before
  }

  function ExitPoints(box: Box, v: Vec3, d: Vec3): Result<(Vec3, Vec3)> {
    ScanFaces(box, v, d, 0, None, None)
  }

  /** `get_exit_points`: the six faces in turn, each intersection checked
      against the other coordinates' bounds, later faces overriding. */
  method GetExitPoints(box: Box, v: Vec3, d: Vec3) returns (r: Result<(Vec3, Vec3)>)
    ensures r == ExitPoints(box, v, d)
  {
    var enter: Option<Vec3> := None;
    var exit: Option<Vec3> := None;
    for count := 0 to 6
      invariant !(enter.Some? && exit.Some?)
      invariant ScanFaces(box, v, d, count, enter, exit) == ExitPoints(box, v, d)
    {
      enter, exit := VisitFace(box, v, d, count, enter, exit);
      if enter.Some? && exit.Some? {
        return Ok((enter.value, exit.value));
      }
    }
    r := Err(ValueError);
  }

  /** One pass of the face loop: a face the direction is parallel to is
      skipped; otherwise the intersection, when within the other bounds,
      becomes the entry or the exit point by the sign of the direction. */
  method VisitFace(box: Box, v: Vec3, d: Vec3, count: nat, enter: Option<Vec3>, exit: Option<Vec3>)
    returns (enter': Option<Vec3>, exit': Option<Vec3>)
    requires count < 6
    ensures enter' == Met(box, v, d, count, true, enter)
    ensures exit' == Met(box, v, d, count, false, exit)
  {
    enter', exit' := enter, exit;
    var coord := count / 2;
    var minMax := count % 2;
    if d.At(coord) == 0.0 {
      return;
    }
    var scale := (box.Side(count) - v.At(coord)) / d.At(coord);
    var p := v.Plus(d.Times(scale));
    var valid := CheckBounds(box, p, coord);
    if valid {
      var sign := if minMax == 1 then 1.0 else -1.0;
      if sign * d.At(coord) < 0.0 {
        enter' := Some(p);
      } else {
        exit' := Some(p);
      }
    }
  }

  /** The inner loop of `get_exit_points`: a point is valid when it is
      within the bounds of every coordinate but `coord`. */
  method CheckBounds(box: Box, p: Vec3, coord: nat) returns (valid: bool)
    requires coord < 3
    ensures valid == InsideOthers(box, p, coord)
  {
    valid := true;
    for i := 0 to 3
      invariant valid <==> forall j :: 0 <= j < i && j != coord ==> box.Low(j) <= p.At(j) <= box.High(j)
    {
      if i == coord {
        continue;
      }
      if p.At(i) < box.Low(i) || p.At(i) > box.High(i) {
        valid := false;
      }
    }
  }

  /** The intersection with face `f` lies on the particle's line and on the
      plane of that face. */
  lemma IntersectionOnFace(box: Box, v: Vec3, d: Vec3, f: nat)
    requires f < 6 && d.At(f / 2) != 0.0
    ensures var t := (box.Side(f) - v.At(f / 2)) / d.At(f / 2);
      Intersection(box, v, d, f) == v.Plus(d.Times(t))
    ensures Intersection(box, v, d, f).At(f / 2) == box.Side(f)
  {
    var c := f / 2;
    var t := (box.Side(f) - v.At(c)) / d.At(c);
    assert d.At(c) * t == box.Side(f) - v.At(c);
    assert v.Plus(d.Times(t)).At(c) == v.At(c) + d.At(c) * t;
  }

  /** A point found so far is a crossing of its kind. */
  ghost predicate Found(box: Box, v: Vec3, d: Vec3, p: Option<Vec3>, entering: bool) {
    p.Some? ==> exists f :: 0 <= f < 6 && CrossingAt(box, v, d, p.value, f, entering)
  }

  lemma {:induction false} ScanFindsCrossings(box: Box, v: Vec3, d: Vec3, count: nat,
                                              enter: Option<Vec3>, exit: Option<Vec3>)
    requires count <= 6
    requires Found(box, v, d, enter, true) && Found(box, v, d, exit, false)
    ensures var r := ScanFaces(box, v, d, count, enter, exit);
      r.Ok? ==> Found(box, v, d, Some(r.value.0), true) && Found(box, v, d, Some(r.value.1), false)
    decreases 6 - count
  {
    if count < 6 {
      MetFound(box, v, d, count, true, enter);
      MetFound(box, v, d, count, false, exit);
      var enter' := Met(box, v, d, count, true, enter);
      var exit' := Met(box, v, d, count, false, exit);
      if !(enter'.Some? && exit'.Some?) {
        ScanFindsCrossings(box, v, d, count + 1, enter', exit');
      }
    }
  }

  lemma MetFound(box: Box, v: Vec3, d: Vec3, f: nat, entering: bool, before: Option<Vec3>)
    requires f < 6 && Found(box, v, d, before, entering)
    ensures Found(box, v, d, Met(box, v, d, f, entering, before), entering)
  {
    if CrossedFace(box, v, d, f) && (entering <==> EntersThrough(d, f)) {
      assert CrossingAt(box, v, d, Intersection(box, v, d, f), f, entering);
    }
  }

  /** Every returned point is a crossing of a face the direction is not
      parallel to: on the particle's line, on the face's plane, within the
      bounds of the other two coordinates; the first enters and the second
      leaves. */
  lemma ExitPointsAreCrossings(box: Box, v: Vec3, d: Vec3)
    ensures var r := ExitPoints(box, v, d);
      r.Ok? ==>
        && (exists f :: 0 <= f < 6 && CrossingAt(box, v, d, r.value.0, f, true))
        && (exists f :: 0 <= f < 6 && CrossingAt(box, v, d, r.value.1, f, false))
  {
    ScanFindsCrossings(box, v, d, 0, None, None);
  }

  /** A crossing through any face the scan has not reached yet. */
  ghost predicate Ahead(box: Box, v: Vec3, d: Vec3, count: nat, entering: bool) {
    exists f :: count <= f < 6 && CrossedFace(box, v, d, f) && (entering <==> EntersThrough(d, f))
  }

  lemma {:induction false} ScanSucceeds(box: Box, v: Vec3, d: Vec3, count: nat,
                                        enter: Option<Vec3>, exit: Option<Vec3>)
    requires count <= 6 && !(enter.Some? && exit.Some?)
    requires enter.Some? || Ahead(box, v, d, count, true)
    requires exit.Some? || Ahead(box, v, d, count, false)
    ensures ScanFaces(box, v, d, count, enter, exit).Ok?
    decreases 6 - count
  {
    if count < 6 {
      var enter' := Met(box, v, d, count, true, enter);
      var exit' := Met(box, v, d, count, false, exit);
      if !(enter'.Some? && exit'.Some?) {
        AheadPast(box, v, d, count, true, enter);
        AheadPast(box, v, d, count, false, exit);
        ScanSucceeds(box, v, d, count + 1, enter', exit');
      }
    }
  }

  /** A crossing ahead that is not through face `count` is ahead of the next face. */
  lemma AheadPast(box: Box, v: Vec3, d: Vec3, count: nat, entering: bool, before: Option<Vec3>)
    requires count < 6
    requires before.Some? || Ahead(box, v, d, count, entering)
    ensures var after := Met(box, v, d, count, entering, before);
      after.Some? || Ahead(box, v, d, count + 1, entering)
  {
    if Met(box, v, d, count, entering, before).None? {
      var f :| count <= f < 6 && CrossedFace(box, v, d, f) && (entering <==> EntersThrough(d, f));
      assert f != count;
    }
  }

  /** `ValueError` is raised exactly when the line does not cross both a
      face it enters through and a face it leaves through. */
  lemma ExitPointsFound(box: Box, v: Vec3, d: Vec3)
    ensures ExitPoints(box, v, d).Ok? <==>
      (exists f :: 0 <= f < 6 && CrossedFace(box, v, d, f) && EntersThrough(d, f)) &&
      (exists f :: 0 <= f < 6 && CrossedFace(box, v, d, f) && !EntersThrough(d, f))
  {
    var r := ExitPoints(box, v, d);
    if r.Ok? {
      ExitPointsAreCrossings(box, v, d);
    }
    if Ahead(box, v, d, 0, true) && Ahead(box, v, d, 0, false) {
      ScanSucceeds(box, v, d, 0, None, None);
    }
  }

  /** A particle without a direction crosses no face. */
  lemma StillParticleHasNoExitPoints(box: Box, v: Vec3)
    ensures ExitPoints(box, v, Vec3(0.0, 0.0, 0.0)) == Err(ValueError)
  {
    ExitPointsFound(box, v, Vec3(0.0, 0.0, 0.0));
  }
}
