/**
  WatchClientsFile as a step system: an initial load, an initial stat, then ticks
  that stat and, if the modification time moved, load.  The file may be edited
  between any two steps, also between the stat and the load of one tick.
 */
module Watcher {
  import opened Common
  import opened Clients
  import opened Registry

  /** The file as the operating system shows it. A missing file is Unreadable, with the zero time. */
  datatype File = File(content: Content, mtime: Time)

  datatype Phase = Starting | Loaded | Watching | Reloading | Stopped

  datatype Watch = Watch(
    phase: Phase,
    last: Time,
    file: File,
    registry: Clientele,
    seed: Clientele,
    loads: seq<seq<Client>>,   // history: every file accepted so far, oldest first
    seen: set<Time>)           // history: every modification time the file has had

  datatype Event = Edit(file: File) | InitialLoad | InitialStat | Poll | Reload

  function Start(seed: Clientele, file: File): Watch {
    Watch(Starting, ZERO_TIME, file, seed, seed, [], {file.mtime})
  }

  /** Load the file and, if it is good, replace the file-sourced clients. */
  function Apply(w: Watch): Watch {
    match Load(w.file.content)
    case Ok(cs) => w.(registry := Replace(w.registry, w.seed.Keys, cs), loads := w.loads + [cs])
    case Err(_) => w
  }

  predicate Enabled(w: Watch, e: Event) {
    match e
    case Edit(_) => true
    case InitialLoad => w.phase.Starting?
    case InitialStat => w.phase.Loaded?
    case Poll => w.phase.Watching?
    case Reload => w.phase.Reloading?
  }

  function Step(w: Watch, e: Event): Watch
    requires Enabled(w, e)
  {
    match e
    case Edit(f) => w.(file := f, seen := w.seen + {f.mtime})
    case InitialLoad => Apply(w).(phase := if Load(w.file.content).Ok? then Loaded else Stopped)
    case InitialStat => w.(last := w.file.mtime, phase := Watching)
    case Poll => if w.file.mtime == w.last then w else w.(last := w.file.mtime, phase := Reloading)
    case Reload => Apply(w).(phase := Watching)
  }

  /** One tick with no edit inside it. */
  function Tick(w: Watch): Watch
    requires w.phase.Watching?
  {
    var polled := Step(w, Poll);
    if polled.phase.Reloading? then Step(polled, Reload) else polled
  }

  // ----- last good -------------------------------------------------------------------

  predicate Running(w: Watch) {
    w.phase.Loaded? || w.phase.Watching? || w.phase.Reloading?
  }

  /** The registry is what the accepted files make of the seed. */
  predicate LastGood(w: Watch) {
    && w.registry == Reloads(w.seed, w.loads)
    && (Running(w) <==> w.loads != [])
    && (w.phase.Watching? || w.phase.Reloading? ==> w.last in w.seen)
    && w.file.mtime in w.seen
  }

  lemma ApplyIsAReload(w: Watch)
    requires w.registry == Reloads(w.seed, w.loads)
    ensures Apply(w) == w.(registry := Reloads(w.seed, Apply(w).loads), loads := Apply(w).loads)
    ensures w.loads <= Apply(w).loads
    ensures Load(w.file.content).Ok? ==> Apply(w).loads != []
    ensures Load(w.file.content).Err? ==> Apply(w) == w
  {
    var loads' := Apply(w).loads;
    if loads' != w.loads {
      assert loads'[..|loads'| - 1] == w.loads;
    }
  }

  lemma LoadingStep(w: Watch, e: Event)
    requires LastGood(w) && Enabled(w, e) && (e.InitialLoad? || e.Reload?)
    ensures LastGood(Step(w, e))
    ensures Step(w, e).seed == w.seed && w.loads <= Step(w, e).loads
  {
    ApplyIsAReload(w);
  }

  lemma OtherStep(w: Watch, e: Event)
    requires LastGood(w) && Enabled(w, e) && !(e.InitialLoad? || e.Reload?)
    ensures LastGood(Step(w, e))
    ensures Step(w, e).seed == w.seed && w.loads == Step(w, e).loads
  {
  }

  lemma LastGoodStep(w: Watch, e: Event)
    requires LastGood(w) && Enabled(w, e)
    ensures LastGood(Step(w, e))
    ensures Step(w, e).seed == w.seed && w.loads <= Step(w, e).loads
  {
    if e.InitialLoad? || e.Reload? {
      LoadingStep(w, e);
    } else {
      OtherStep(w, e);
    }
  }

  /** Any interleaving of edits, of whatever kind, with the watcher's steps. */
  predicate Legal(w: Watch, es: seq<Event>)
    decreases |es|
  {
    es == [] || (Enabled(w, es[0]) && Legal(Step(w, es[0]), es[1..]))
  }

  function Run(w: Watch, es: seq<Event>): Watch
    requires Legal(w, es)
    decreases |es|
  {
    if es == [] then w else Run(Step(w, es[0]), es[1..])
  }

  /** In every run, with no condition on the edits, the registry is what the files accepted so far make of the seed,
      and no accepted file is taken back. */
  lemma {:induction false} RegistryIsLastGood(w: Watch, es: seq<Event>)
    requires LastGood(w) && Legal(w, es)
    ensures LastGood(Run(w, es)) && Run(w, es).seed == w.seed && w.loads <= Run(w, es).loads
    decreases |es|
  {
    if es != [] {
      LastGoodStep(w, es[0]);
      RegistryIsLastGood(Step(w, es[0]), es[1..]);
    }
  }

  // ----- convergence --------------------------------------------------------------------

  /** The registry stems from the file's present contents, unless these cannot be loaded. */
  predicate Reflects(w: Watch) {
    match Load(w.file.content)
    case Ok(cs) => w.loads != [] && w.loads[|w.loads| - 1] == cs
    case Err(_) => true
  }

  /** An edit the watcher is able to notice: while it waits, the stamp differs from the one it last
      recorded, and no loadable contents slip in between the initial load and the initial stat. */
  predicate Noticeable(w: Watch, f: File) {
    Load(f.content).Err? || match w.phase
                            case Watching => f.mtime != w.last
                            case Loaded => false
                            case _ => true
  }

  /** The file loads to what is in force already. */
  predicate InForce(w: Watch, f: File) {
    Load(f.content).Ok? && w.loads != [] && w.loads[|w.loads| - 1] == Load(f.content).value
  }

  /** Where the recorded stamp is the file's, there is nothing left to load. */
  predicate Synced(w: Watch) {
    match w.phase
    case Watching => w.last == w.file.mtime ==> Reflects(w)
    case Loaded => Reflects(w)
    case _ => true
  }

  /** The watcher has recorded the file's stamp, or is about to, without having loaded its contents. */
  predicate Blind(w: Watch) {
    !Reflects(w) && match w.phase
                    case Watching => w.last == w.file.mtime
                    case Loaded => true
                    case _ => false
  }

  predicate EditFree(es: seq<Event>) {
    forall e | e in es :: !e.Edit?
  }

  /** Until the next edit, a watcher that is in step stays so, and one that is blind stays blind. */
  lemma {:induction false} QuietStepsChangeNothing(w: Watch, es: seq<Event>)
    requires Legal(w, es) && EditFree(es)
    ensures Run(w, es).file == w.file
    ensures Synced(w) ==> Synced(Run(w, es))
    ensures Blind(w) ==> Blind(Run(w, es))
    decreases |es|
  {
    if es != [] {
      assert !es[0].Edit?;
      QuietStepsChangeNothing(Step(w, es[0]), es[1..]);
    }
  }

  /** A quiet tick brings the registry to the file exactly if the watcher is in step, and then further ticks change nothing. */
  lemma QuietTick(w: Watch)
    requires w.phase.Watching?
    ensures Tick(w).phase.Watching? && Tick(w).file == w.file
    ensures Synced(w) ==> Reflects(Tick(w)) && Tick(Tick(w)) == Tick(w)
    ensures Blind(w) ==> !Reflects(Tick(w)) && Tick(w) == w
    ensures Load(w.file.content).Err? ==> Tick(w).registry == w.registry && Tick(w).loads == w.loads
  {
  }

  /** Whatever happened before, and whatever the watcher does next, an edit followed by no other is in force after a
      quiet tick exactly if it was noticeable when it was made, or loads to what was in force then. */
  lemma EditTakesExactlyWhen(w0: Watch, f: File, es: seq<Event>, w: Watch)
    requires LastGood(w0)
    requires Legal(Step(w0, Edit(f)), es) && EditFree(es) && w == Run(Step(w0, Edit(f)), es) && w.phase.Watching?
    ensures Reflects(Tick(w)) <==> Noticeable(w0, f) || InForce(w0, f)
  {
    var edited := Step(w0, Edit(f));
    QuietStepsChangeNothing(edited, es);
    QuietTick(w);
    if Noticeable(w0, f) || InForce(w0, f) {
      assert Synced(edited);
    } else {
      assert Blind(edited);
    }
  }

  /** The last edit of a run, if it has one, was noticeable when it was made or loads to what was in force then. */
  predicate LastEditTakes(w: Watch, es: seq<Event>)
    requires Legal(w, es)
    decreases |es|
  {
    if es == [] then true
    else if es[0].Edit? && EditFree(es[1..]) then Noticeable(w, es[0].file) || InForce(w, es[0].file)
    else LastEditTakes(Step(w, es[0]), es[1..])
  }

  lemma {:induction false} OnlyTheLastEditMatters(w0: Watch, es: seq<Event>, w: Watch)
    requires LastGood(w0) && Legal(w0, es) && w == Run(w0, es) && w.phase.Watching?
    requires EditFree(es) ==> Synced(w0)
    ensures Reflects(Tick(w)) <==> LastEditTakes(w0, es)
    decreases |es|
  {
    if es == [] {
      QuietTick(w);
    } else if es[0].Edit? && EditFree(es[1..]) {
      EditTakesExactlyWhen(w0, es[0].file, es[1..], w);
    } else {
      LastGoodStep(w0, es[0]);
      if EditFree(es[1..]) {
        assert EditFree(es);
      }
      OnlyTheLastEditMatters(Step(w0, es[0]), es[1..], w);
    }
  }

  /** Over every schedule of arbitrary edits, one tick over a file that holds still brings the registry to that file,
      or leaves it alone if the file cannot be loaded, exactly if the last edit takes; and there it stays. */
  lemma OneQuietTickConverges(seed: Clientele, file: File, es: seq<Event>, w: Watch)
    requires Legal(Start(seed, file), es) && w == Run(Start(seed, file), es) && w.phase.Watching?
    ensures var w' := Tick(w);
            && w'.phase.Watching? && w'.file == w.file
            && w'.registry == Reloads(seed, w'.loads)
            && (Reflects(w') <==> LastEditTakes(Start(seed, file), es))
            && Tick(w') == w'
            && (Load(w.file.content).Err? ==> w'.registry == w.registry && w'.loads == w.loads)
  {
    RegistryIsLastGood(Start(seed, file), es);
    OnlyTheLastEditMatters(Start(seed, file), es, w);
    QuietTick(w);
    LastGoodStep(w, Poll);
    if Step(w, Poll).phase.Reloading? {
      LastGoodStep(Step(w, Poll), Reload);
    }
  }

  /** ... and that is the seed overlaid with the file, while no accepted file redeclares a seeded client. */
  lemma ConvergedRegistry(seed: Clientele, file: File, es: seq<Event>, w: Watch)
    requires Legal(Start(seed, file), es) && w == Run(Start(seed, file), es) && w.phase.Watching?
    requires LastEditTakes(Start(seed, file), es) && Load(w.file.content).Ok?
    requires forall cs | cs in Tick(w).loads :: RedeclaresNoSeed(seed, cs)
    ensures Tick(w).registry == seed + Declared(Load(w.file.content).value)
  {
    OneQuietTickConverges(seed, file, es, w);
    EarlierFilesAreForgotten(seed, Tick(w).loads);
  }

  /** A stamp the file never had before is always noticeable once watching has begun. */
  lemma FreshStampIsNoticeable(w: Watch, f: File)
    requires LastGood(w) && !w.phase.Loaded? && f.mtime !in w.seen
    ensures Noticeable(w, f)
  {
  }

  /** Different stamps for different contents are not enough: put a file back, stamp and all, while a tick
      is between its stat and its load, and the watcher serves the intermediate file forever. */
  lemma RestoredStampIsMissed(w: Watch, kept: File, passing: File) returns (w': Watch)
    requires LastGood(w) && w.phase.Watching?
    requires w.last == w.file.mtime && w.last != kept.mtime && kept.mtime != passing.mtime
    requires Load(kept.content).Ok? && Load(passing.content).Ok?
    requires Load(kept.content).value != Load(passing.content).value
    ensures w' == Step(Step(Step(Step(Step(w, Edit(kept)), Poll), Edit(passing)), Reload), Edit(kept))
    ensures w'.phase.Watching? && w'.file == kept && Tick(w') == w' && !Reflects(w')
  {
    w' := Step(Step(Step(Step(Step(w, Edit(kept)), Poll), Edit(passing)), Reload), Edit(kept));
  }

  /** The initial load comes before the initial stat: an edit in between is in force after a quiet tick exactly if
      it loads to what was read, and otherwise no later quiet tick picks it up either. */
  lemma StartupEditIsSeenExactlyWhen(seed: Clientele, read: File, f: File)
    requires Load(read.content).Ok? && Load(f.content).Ok?
    ensures var w := Step(Step(Step(Start(seed, read), InitialLoad), Edit(f)), InitialStat);
            && w.phase.Watching? && w.file == f && Tick(w) == w
            && (Reflects(w) <==> Load(f.content).value == Load(read.content).value)
  {
  }
}
