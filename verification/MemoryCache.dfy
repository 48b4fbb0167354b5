/**
  The memory store's parsed-file cache as a protocol: calls that stat, look up,
  read and insert in separate steps, while other calls, other threads and other
  processes replace and remove the files in between.
 */
module MemoryCache {
  import opened Wrappers

  type Name = string
  type Caller = nat
  type Signature = nat
  type Item = string

  datatype FileState = Absent | NotRegular | File(signature: Signature, bytes: string)

  /** A directory at one moment; a name that is not listed is absent. */
  type Directory = map<Name, FileState>

  /** How file contents parse: unreadable contents parse to nothing. */
  type Parser = (Name, string) -> Option<Item>

  datatype Entry = Entry(signature: Signature, item: Item)

  /**
    Where a load stands. started and ended are positions in the directory's
    history; they are not seen by the program.
   */
  datatype Call =
    | Missing(name: Name, started: nat)
    | Statted(name: Name, started: nat, signature: Signature)
    | Missed(name: Name, started: nat, signature: Signature)
    | HasRead(name: Name, started: nat, signature: Signature, item: Option<Item>)
    | Returned(name: Name, started: nat, ended: nat, result: Option<Item>)

  datatype Store = Store(history: seq<Directory>, cache: map<Name, Entry>, calls: map<Caller, Call>)

  function Now(s: Store): Directory
    requires s.history != []
  {
    s.history[|s.history| - 1]
  }

  function FileAt(d: Directory, name: Name): FileState {
    if name in d then d[name] else Absent
  }

  /** What reading and parsing the file gives at one moment. */
  function Parsed(parse: Parser, d: Directory, name: Name): Option<Item> {
    var f := FileAt(d, name);
    if f.File? then parse(name, f.bytes) else None
  }

  // ----- steps -----

  function Stat(s: Store, c: Caller, name: Name): Store
    requires s.history != []
  {
    var now, f := |s.history| - 1, FileAt(Now(s), name);
    s.(calls := s.calls[c := if f.File? then Statted(name, now, f.signature) else Missing(name, now)])
  }

  /** A file that is not there, or is no regular file, is dropped from the cache. */
  function ReturnMissing(s: Store, c: Caller): Store
    requires s.history != [] && c in s.calls && s.calls[c].Missing?
  {
    var k := s.calls[c];
    s.(cache := s.cache - {k.name}, calls := s.calls[c := Returned(k.name, k.started, |s.history| - 1, None)])
  }

  /** A cached entry answers the call when its signature is the one just seen. */
  function LookUp(s: Store, c: Caller): Store
    requires s.history != [] && c in s.calls && s.calls[c].Statted?
  {
    var k := s.calls[c];
    if k.name in s.cache && s.cache[k.name].signature == k.signature then
      s.(calls := s.calls[c := Returned(k.name, k.started, |s.history| - 1, Some(s.cache[k.name].item))])
    else
      s.(calls := s.calls[c := Missed(k.name, k.started, k.signature)])
  }

  function Read(s: Store, parse: Parser, c: Caller): Store
    requires s.history != [] && c in s.calls && s.calls[c].Missed?
  {
    var k := s.calls[c];
    s.(calls := s.calls[c := HasRead(k.name, k.started, k.signature, Parsed(parse, Now(s), k.name))])
  }

  /** The parsed item is cached under the signature seen before the read. */
  function Insert(s: Store, c: Caller): Store
    requires s.history != [] && c in s.calls && s.calls[c].HasRead?
  {
    var k := s.calls[c];
    var done := s.calls[c := Returned(k.name, k.started, |s.history| - 1, k.item)];
    match k.item
    case Some(item) => s.(cache := s.cache[k.name := Entry(k.signature, item)], calls := done)
    case None => s.(cache := s.cache - {k.name}, calls := done)
  }

  /** A deletion, or a listing that no longer shows the name, drops the cached entry. */
  function Evict(s: Store, name: Name): Store {
    s.(cache := s.cache - {name})
  }

  /** A save or anybody else puts a new file, or something else, under the name; or removes it. */
  function Change(s: Store, name: Name, f: FileState): Store
    requires s.history != []
  {
    s.(history := s.history + [Now(s)[name := f]])
  }

  /** A replaced file has a signature that the name never had before. */
  predicate Fresh(s: Store, name: Name, f: FileState) {
    f.File? ==> forall i :: 0 <= i < |s.history| ==> !HasSignature(s.history[i], name, f.signature)
  }

  predicate HasSignature(d: Directory, name: Name, signature: Signature) {
    FileAt(d, name).File? && FileAt(d, name).signature == signature
  }

  datatype Step =
    | DoStat(c: Caller, name: Name)
    | DoReturnMissing(c: Caller)
    | DoLookUp(c: Caller)
    | DoRead(c: Caller)
    | DoInsert(c: Caller)
    | DoEvict(name: Name)
    | DoChange(name: Name, f: FileState)

  predicate Enabled(s: Store, step: Step) {
    && s.history != []
    && match step
       case DoStat(c, name) => c !in s.calls || s.calls[c].Returned?
       case DoReturnMissing(c) => c in s.calls && s.calls[c].Missing?
       case DoLookUp(c) => c in s.calls && s.calls[c].Statted?
       case DoRead(c) => c in s.calls && s.calls[c].Missed?
       case DoInsert(c) => c in s.calls && s.calls[c].HasRead?
       case DoEvict(_) => true
       case DoChange(_, _) => true
  }

  function Take(s: Store, parse: Parser, step: Step): Store
    requires Enabled(s, step)
  {
    match step
    case DoStat(c, name) => Stat(s, c, name)
    case DoReturnMissing(c) => ReturnMissing(s, c)
    case DoLookUp(c) => LookUp(s, c)
    case DoRead(c) => Read(s, parse, c)
    case DoInsert(c) => Insert(s, c)
    case DoEvict(name) => Evict(s, name)
    case DoChange(name, f) => Change(s, name, f)
  }

  predicate StepIsFresh(s: Store, step: Step) {
    step.DoChange? ==> Fresh(s, step.name, step.f)
  }

  // ----- the invariant -----

  /**
    Signatures tell whether a parse is still good: where a signature is seen again,
    the file parses to whatever it parsed to at any moment in between.
   */
  ghost predicate Tells(parse: Parser, h: seq<Directory>) {
    forall name, i, j, k :: 0 <= i <= j <= k < |h| ==> TellsBetween(parse, h, name, i, j, k)
  }

  ghost predicate TellsBetween(parse: Parser, h: seq<Directory>, name: Name, i: nat, j: nat, k: nat)
    requires i <= j <= k < |h|
  {
    FileAt(h[i], name).File? && HasSignature(h[k], name, FileAt(h[i], name).signature) ==>
      Parsed(parse, h[j], name).Some? ==> Parsed(parse, h[k], name) == Parsed(parse, h[j], name)
  }

  lemma TellsBefore(parse: Parser, h: seq<Directory>, h': seq<Directory>)
    requires Tells(parse, h') && h <= h'
    ensures Tells(parse, h)
  {
    forall name, i: nat, j: nat, k: nat | i <= j <= k < |h| ensures TellsBetween(parse, h, name, i, j, k) {
      assert TellsBetween(parse, h', name, i, j, k);
    }
  }

  ghost predicate ParsedWithin(history: seq<Directory>, parse: Parser, name: Name, from: nat, to: nat,
                               item: Option<Item>) {
    exists j :: from <= j <= to && j < |history| && Parsed(parse, history[j], name) == item
  }

  /** A cached item was parsed from the file no earlier than its signature was seen. */
  ghost predicate EntryOk(history: seq<Directory>, parse: Parser, name: Name, e: Entry) {
    exists i :: 0 <= i < |history| && HasSignature(history[i], name, e.signature)
      && ParsedWithin(history, parse, name, i, |history| - 1, Some(e.item))
  }

  ghost predicate CallOk(history: seq<Directory>, parse: Parser, k: Call) {
    && k.started < |history|
    && match k
       case Missing(name, started) => !FileAt(history[started], name).File?
       case Statted(name, started, signature) => HasSignature(history[started], name, signature)
       case Missed(name, started, signature) => HasSignature(history[started], name, signature)
       case HasRead(name, started, signature, item) =>
         && HasSignature(history[started], name, signature)
         && ParsedWithin(history, parse, name, started, |history| - 1, item)
       case Returned(name, started, ended, result) =>
         && started <= ended < |history|
         && ParsedWithin(history, parse, name, started, ended, result)
  }

  ghost predicate Inv(s: Store, parse: Parser) {
    && s.history != []
    && Tells(parse, s.history)
    && (forall name :: name in s.cache ==> EntryOk(s.history, parse, name, s.cache[name]))
    && (forall c :: c in s.calls ==> CallOk(s.history, parse, s.calls[c]))
  }

  ghost predicate Initial(s: Store) {
    |s.history| == 1 && s.cache == map[] && s.calls == map[]
  }

  lemma LaterHistory(history: seq<Directory>, d: Directory, parse: Parser, name: Name, from: nat, to: nat,
                     item: Option<Item>)
    requires ParsedWithin(history, parse, name, from, to, item)
    ensures ParsedWithin(history + [d], parse, name, from, to, item)
    ensures ParsedWithin(history + [d], parse, name, from, |history|, item)
  {
    var j :| from <= j <= to && j < |history| && Parsed(parse, history[j], name) == item;
    assert (history + [d])[j] == history[j];
  }

  lemma LaterEntry(history: seq<Directory>, d: Directory, parse: Parser, name: Name, e: Entry)
    requires EntryOk(history, parse, name, e)
    ensures EntryOk(history + [d], parse, name, e)
  {
    var i :| 0 <= i < |history| && HasSignature(history[i], name, e.signature)
      && ParsedWithin(history, parse, name, i, |history| - 1, Some(e.item));
    LaterHistory(history, d, parse, name, i, |history| - 1, Some(e.item));
    assert HasSignature((history + [d])[i], name, e.signature);
  }

  lemma LaterCall(history: seq<Directory>, d: Directory, parse: Parser, k: Call)
    requires CallOk(history, parse, k)
    ensures CallOk(history + [d], parse, k)
  {
    if k.HasRead? {
      LaterHistory(history, d, parse, k.name, k.started, |history| - 1, k.item);
    } else if k.Returned? {
      LaterHistory(history, d, parse, k.name, k.started, k.ended, k.result);
    }
  }

  lemma ChangeKeepsInv(s: Store, parse: Parser, name: Name, f: FileState)
    requires Inv(s, parse) && Tells(parse, Change(s, name, f).history)
    ensures Inv(Change(s, name, f), parse)
  {
    hide EntryOk, CallOk, Tells;
    var h, d := s.history, Now(s)[name := f];
    forall n | n in s.cache ensures EntryOk(h + [d], parse, n, s.cache[n]) {
      LaterEntry(h, d, parse, n, s.cache[n]);
    }
    forall c | c in s.calls ensures CallOk(h + [d], parse, s.calls[c]) {
      LaterCall(h, d, parse, s.calls[c]);
    }
  }

  /** The heart of the argument: a cached item with the signature just seen was current since. */
  lemma HitIsCurrent(history: seq<Directory>, parse: Parser, name: Name, started: nat, e: Entry)
    requires Tells(parse, history) && EntryOk(history, parse, name, e)
    requires started < |history| && HasSignature(history[started], name, e.signature)
    ensures ParsedWithin(history, parse, name, started, |history| - 1, Some(e.item))
  {
    var i :| 0 <= i < |history| && HasSignature(history[i], name, e.signature)
      && ParsedWithin(history, parse, name, i, |history| - 1, Some(e.item));
    var j :| i <= j <= |history| - 1 && Parsed(parse, history[j], name) == Some(e.item);
    if j < started {
      assert TellsBetween(parse, history, name, i, j, started);
      assert Parsed(parse, history[started], name) == Some(e.item);
    }
  }

  /** Updating one call, and nothing else but the cache, keeps the invariant. */
  lemma CallUpdateKeepsInv(s: Store, t: Store, parse: Parser, c: Caller)
    requires Inv(s, parse) && t.history == s.history
    requires c in t.calls && t.calls == s.calls[c := t.calls[c]] && CallOk(s.history, parse, t.calls[c])
    requires forall n :: n in t.cache ==>
               (n in s.cache && t.cache[n] == s.cache[n]) || EntryOk(s.history, parse, n, t.cache[n])
    ensures Inv(t, parse)
  {
    hide EntryOk, CallOk, Tells;
  }

  /** What a step makes of the call it belongs to is in order. */
  lemma StepCallOk(s: Store, parse: Parser, step: Step)
    requires Inv(s, parse) && Enabled(s, step) && !step.DoEvict? && !step.DoChange?
    ensures CallOk(s.history, parse, Take(s, parse, step).calls[step.c])
  {
    match step
    case DoStat(c, name) =>
    case DoReturnMissing(c) =>
      var k := s.calls[c];
      assert CallOk(s.history, parse, k);
      assert Parsed(parse, s.history[k.started], k.name) == None;
    case DoLookUp(c) =>
      var k := s.calls[c];
      assert CallOk(s.history, parse, k);
      if k.name in s.cache && s.cache[k.name].signature == k.signature {
        HitIsCurrent(s.history, parse, k.name, k.started, s.cache[k.name]);
      }
    case DoRead(c) =>
      var k := s.calls[c];
      assert CallOk(s.history, parse, k);
      assert Parsed(parse, s.history[|s.history| - 1], k.name) == Parsed(parse, Now(s), k.name);
    case DoInsert(c) =>
      assert CallOk(s.history, parse, s.calls[c]);
  }

  /** A caller's step touches its own call, and at most caches the item it read. */
  lemma CallStepEffect(s: Store, parse: Parser, step: Step)
    requires Enabled(s, step) && !step.DoEvict? && !step.DoChange?
    ensures var t := Take(s, parse, step);
            && t.history == s.history && step.c in t.calls && t.calls == s.calls[step.c := t.calls[step.c]]
            && forall n :: n in t.cache ==>
                 || (n in s.cache && t.cache[n] == s.cache[n])
                 || (step.DoInsert? && s.calls[step.c].item.Some? && n == s.calls[step.c].name
                     && t.cache[n] == Entry(s.calls[step.c].signature, s.calls[step.c].item.value))
  {
  }

  lemma TakeKeepsInv(s: Store, parse: Parser, step: Step)
    requires Inv(s, parse) && Enabled(s, step) && Tells(parse, Take(s, parse, step).history)
    ensures Inv(Take(s, parse, step), parse)
  {
    if step.DoChange? {
      ChangeKeepsInv(s, parse, step.name, step.f);
    } else if step.DoEvict? {
      hide EntryOk, CallOk, Tells;
    } else {
      hide *;
      CallStepEffect(s, parse, step);
      StepCallOk(s, parse, step);
      InsertedOk(s, parse, step);
      CallUpdateKeepsInv(s, Take(s, parse, step), parse, step.c);
    }
  }

  lemma InsertedOk(s: Store, parse: Parser, step: Step)
    requires Inv(s, parse) && Enabled(s, step)
    ensures step.DoInsert? && s.calls[step.c].item.Some? ==>
              var k := s.calls[step.c];
              EntryOk(s.history, parse, k.name, Entry(k.signature, k.item.value))
  {
    if step.DoInsert? {
      assert CallOk(s.history, parse, s.calls[step.c]);
    }
  }

  // ----- whole runs -----

  /** Any interleaving of the steps of any number of callers and of outside changes. */
  ghost predicate IsRun(parse: Parser, states: seq<Store>, steps: seq<Step>) {
    && |states| == |steps| + 1
    && Initial(states[0])
    && forall i :: 0 <= i < |steps| ==>
         Enabled(states[i], steps[i]) && states[i + 1] == Take(states[i], parse, steps[i])
  }

  lemma HistoryGrows(parse: Parser, states: seq<Store>, steps: seq<Step>, i: nat)
    requires IsRun(parse, states, steps) && i < |steps|
    ensures states[i].history <= states[i + 1].history
  {
    assert states[i + 1] == Take(states[i], parse, steps[i]);
  }

  lemma {:induction false} RunKeepsInv(parse: Parser, states: seq<Store>, steps: seq<Step>, n: nat)
    requires IsRun(parse, states, steps) && n < |states| && Tells(parse, states[n].history)
    ensures Inv(states[n], parse)
  {
    if n > 0 {
      HistoryGrows(parse, states, steps, n - 1);
      TellsBefore(parse, states[n - 1].history, states[n].history);
      RunKeepsInv(parse, states, steps, n - 1);
      assert states[n - 1 + 1] == Take(states[n - 1], parse, steps[n - 1]);
      TakeKeepsInv(states[n - 1], parse, steps[n - 1]);
    }
  }

  /** Every load that has returned gave the parse of contents the file had while the call was running. */
  ghost predicate LoadsCurrent(parse: Parser, s: Store) {
    forall c :: c in s.calls && s.calls[c].Returned? ==>
      var k := s.calls[c];
      ParsedWithin(s.history, parse, k.name, k.started, k.ended, k.result)
  }

  /** In every interleaving, as long as signatures tell. */
  lemma LoadsAreLinearizable(parse: Parser, states: seq<Store>, steps: seq<Step>, n: nat)
    requires IsRun(parse, states, steps) && n < |states| && Tells(parse, states[n].history)
    ensures LoadsCurrent(parse, states[n])
  {
    RunKeepsInv(parse, states, steps, n);
    forall c | c in states[n].calls && states[n].calls[c].Returned?
      ensures CallOk(states[n].history, parse, states[n].calls[c])
    {
    }
  }

  /** A cached entry that carries the file's present signature holds its present contents. */
  lemma CacheIsNeverStale(parse: Parser, states: seq<Store>, steps: seq<Step>, n: nat, name: Name)
    requires IsRun(parse, states, steps) && n < |states| && Tells(parse, states[n].history)
    requires name in states[n].cache
    requires states[n].history != [] && HasSignature(Now(states[n]), name, states[n].cache[name].signature)
    ensures Parsed(parse, Now(states[n]), name) == Some(states[n].cache[name].item)
  {
    RunKeepsInv(parse, states, steps, n);
    var s := states[n];
    HitIsCurrent(s.history, parse, name, |s.history| - 1, s.cache[name]);
  }

  /** If the file did not change while the call ran, the call returns its present contents. */
  lemma QuietLoadIsExact(parse: Parser, states: seq<Store>, steps: seq<Step>, n: nat, c: Caller)
    requires IsRun(parse, states, steps) && n < |states| && Tells(parse, states[n].history)
    requires c in states[n].calls && states[n].calls[c].Returned?
    requires var k, h := states[n].calls[c], states[n].history;
             h != [] && forall j :: k.started <= j < |h| ==> FileAt(h[j], k.name) == FileAt(Now(states[n]), k.name)
    ensures states[n].calls[c].result == Parsed(parse, Now(states[n]), states[n].calls[c].name)
  {
    LoadsAreLinearizable(parse, states, steps, n);
  }

  // ----- when signatures tell -----

  /** The directory changes one name at a time. */
  ghost predicate IsHistory(h: seq<Directory>) {
    h != [] && forall i, j :: 0 <= i < j < |h| && j == i + 1 ==> Follows(h[i], h[j])
  }

  ghost predicate Follows(d: Directory, d': Directory) {
    exists name, f {:trigger d[name := f]} :: d' == d[name := f]
  }

  ghost predicate Reachable(parse: Parser, s: Store) {
    exists states, steps :: IsRun(parse, states, steps) && s == states[|states| - 1]
  }

  lemma StepReaches(parse: Parser, s: Store, step: Step)
    requires Reachable(parse, s) && Enabled(s, step)
    ensures Reachable(parse, Take(s, parse, step))
  {
    hide Initial, Enabled, Take;
    var states, steps :| IsRun(parse, states, steps) && s == states[|states| - 1];
    assert IsRun(parse, states + [Take(s, parse, step)], steps + [step]);
  }

  /** From a store that knows the history up to now, the directory can go on changing as the history says. */
  lemma {:induction false} ChangesReach(parse: Parser, s: Store, h: seq<Directory>, n: nat)
    requires Reachable(parse, s) && IsHistory(h) && [] < s.history <= h && |s.history| <= n <= |h|
    ensures Reachable(parse, s.(history := h[..n]))
    decreases n
  {
    if n == |s.history| {
      assert s.(history := h[..n]) == s;
    } else {
      ChangesReach(parse, s, h, n - 1);
      var t := s.(history := h[..n - 1]);
      assert Follows(h[n - 2], h[n - 1]);
      var name, f :| h[n - 1] == h[n - 2][name := f];
      StepReaches(parse, t, DoChange(name, f));
      assert h[..n - 1] + [h[n - 1]] == h[..n];
    }
  }

  /** A caller that stats at i, finds nothing cached, and reads and inserts at j. */
  lemma FirstLoad(parse: Parser, h: seq<Directory>, name: Name, i: nat, j: nat) returns (s: Store)
    requires IsHistory(h) && i <= j < |h| && FileAt(h[i], name).File? && Parsed(parse, h[j], name).Some?
    ensures Reachable(parse, s) && s.history == h[..j + 1] && s.calls.Keys == {0}
    ensures s.cache == map[name := Entry(FileAt(h[i], name).signature, Parsed(parse, h[j], name).value)]
  {
    var first := Store(h[..1], map[], map[]);
    assert IsRun(parse, [first], []);
    hide Reachable, IsHistory, Parsed;
    ChangesReach(parse, first, h, i + 1);
    s := Store(h[..i + 1], map[], map[]);
    s := Taken(parse, s, DoStat(0, name));
    s := Taken(parse, s, DoLookUp(0));
    ChangesReach(parse, s, h, j + 1);
    s := s.(history := h[..j + 1]);
    s := Taken(parse, s, DoRead(0));
    s := Taken(parse, s, DoInsert(0));
  }

  /** Another one that stats at k, where the signature is that of i again, is given what the first one cached. */
  lemma TwoLoads(parse: Parser, h: seq<Directory>, name: Name, i: nat, j: nat, k: nat) returns (s: Store)
    requires IsHistory(h) && i <= j <= k < |h|
    requires FileAt(h[i], name).File? && HasSignature(h[k], name, FileAt(h[i], name).signature)
    requires Parsed(parse, h[j], name).Some?
    ensures Reachable(parse, s) && s.history == h[..k + 1]
    ensures 1 in s.calls && s.calls[1] == Returned(name, k, k, Parsed(parse, h[j], name))
  {
    hide Reachable, IsHistory, Parsed;
    s := FirstLoad(parse, h, name, i, j);
    ChangesReach(parse, s, h, k + 1);
    s := s.(history := h[..k + 1]);
    s := Taken(parse, s, DoStat(1, name));
    s := Taken(parse, s, DoLookUp(1));
  }

  lemma Taken(parse: Parser, s: Store, step: Step) returns (t: Store)
    requires Reachable(parse, s) && Enabled(s, step)
    ensures t == Take(s, parse, step) && Reachable(parse, t)
  {
    StepReaches(parse, s, step);
    t := Take(s, parse, step);
  }

  /** Whatever calls are made and however they interleave while the directory goes through this history. */
  ghost predicate CacheIsSafe(parse: Parser, h: seq<Directory>) {
    forall s :: Reachable(parse, s) && s.history <= h ==> LoadsCurrent(parse, s)
  }

  lemma ReachableIsCurrent(parse: Parser, s: Store)
    requires Reachable(parse, s) && Tells(parse, s.history)
    ensures LoadsCurrent(parse, s)
  {
    hide Tells, LoadsCurrent;
    var states, steps :| IsRun(parse, states, steps) && s == states[|states| - 1];
    LoadsAreLinearizable(parse, states, steps, |states| - 1);
  }

  /** The exact condition under which no load returns what was not there while it ran. */
  lemma SafeIffSignaturesTell(parse: Parser, h: seq<Directory>)
    requires IsHistory(h)
    ensures CacheIsSafe(parse, h) <==> Tells(parse, h)
  {
    hide Reachable, IsHistory, LoadsCurrent;
    if Tells(parse, h) {
      forall s | Reachable(parse, s) && s.history <= h ensures LoadsCurrent(parse, s) {
        TellsBefore(parse, s.history, h);
        ReachableIsCurrent(parse, s);
      }
    }
    if CacheIsSafe(parse, h) {
      forall name, i: nat, j: nat, k: nat | i <= j <= k < |h| ensures TellsBetween(parse, h, name, i, j, k) {
        if FileAt(h[i], name).File? && HasSignature(h[k], name, FileAt(h[i], name).signature)
           && Parsed(parse, h[j], name).Some? {
          var s := TwoLoads(parse, h, name, i, j, k);
          SecondLoadIsCurrent(parse, s, h, name, k);
        }
      }
    }
  }

  lemma SecondLoadIsCurrent(parse: Parser, s: Store, h: seq<Directory>, name: Name, k: nat)
    requires k < |h| && s.history == h[..k + 1] && LoadsCurrent(parse, s)
    requires 1 in s.calls && s.calls[1].Returned? && s.calls[1].name == name
    requires s.calls[1].started == s.calls[1].ended == k
    ensures s.calls[1].result == Parsed(parse, h[k], name)
  {
    hide Parsed;
    assert ParsedWithin(s.history, parse, name, k, k, s.calls[1].result);
  }

  // ----- new signatures tell -----

  /** Every replacement brings a signature that the name never had, as the program relies on. */
  ghost predicate FreshRun(states: seq<Store>, steps: seq<Step>) {
    |states| == |steps| + 1 && forall i :: 0 <= i < |steps| ==> StepIsFresh(states[i], steps[i])
  }

  /** A signature belongs to one unbroken stretch of a name's history. */
  ghost predicate Stretches(history: seq<Directory>) {
    forall name, i, j, k :: 0 <= i <= k <= j < |history|
      && FileAt(history[i], name).File? && HasSignature(history[j], name, FileAt(history[i], name).signature)
      ==> FileAt(history[k], name) == FileAt(history[i], name)
  }

  lemma ChangeKeepsStretches(s: Store, name: Name, f: FileState)
    requires s.history != [] && Stretches(s.history) && Fresh(s, name, f)
    ensures Stretches(Change(s, name, f).history)
  {
    var h := Change(s, name, f).history;
    forall other, i, j, k | 0 <= i <= k <= j < |h| && FileAt(h[i], other).File?
        && HasSignature(h[j], other, FileAt(h[i], other).signature)
      ensures FileAt(h[k], other) == FileAt(h[i], other)
    {
      var last := |s.history| - 1;
      if j == |s.history| && i < j {
        if other != name {
          assert FileAt(h[j], other) == FileAt(s.history[last], other);
          assert HasSignature(s.history[last], other, FileAt(h[i], other).signature);
          if k < j { assert FileAt(s.history[k], other) == FileAt(s.history[i], other); }
        }
      }
    }
  }

  lemma {:induction false} FreshRunStretches(parse: Parser, states: seq<Store>, steps: seq<Step>, n: nat)
    requires IsRun(parse, states, steps) && FreshRun(states, steps) && n < |states|
    ensures states[n].history != [] && Stretches(states[n].history)
  {
    if n > 0 {
      FreshRunStretches(parse, states, steps, n - 1);
      assert states[n - 1 + 1] == Take(states[n - 1], parse, steps[n - 1]);
      assert StepIsFresh(states[n - 1], steps[n - 1]);
      if steps[n - 1].DoChange? {
        ChangeKeepsStretches(states[n - 1], steps[n - 1].name, steps[n - 1].f);
      }
    }
  }

  lemma FreshRunTells(parse: Parser, states: seq<Store>, steps: seq<Step>, n: nat)
    requires IsRun(parse, states, steps) && FreshRun(states, steps) && n < |states|
    ensures Tells(parse, states[n].history)
  {
    FreshRunStretches(parse, states, steps, n);
    var h := states[n].history;
    forall name, i: nat, j: nat, k: nat | i <= j <= k < |h| ensures TellsBetween(parse, h, name, i, j, k) {
      if FileAt(h[i], name).File? && HasSignature(h[k], name, FileAt(h[i], name).signature) {
        assert FileAt(h[j], name) == FileAt(h[i], name) && FileAt(h[k], name) == FileAt(h[i], name);
      }
    }
  }

  /** The call returned something the file did not parse to at any moment of the call. */
  ghost predicate WasNeverThere(parse: Parser, s: Store, c: Caller) {
    && c in s.calls && s.calls[c].Returned? && s.calls[c].ended < |s.history|
    && forall j :: s.calls[c].started <= j <= s.calls[c].ended
         ==> s.calls[c].result != Parsed(parse, s.history[j], s.calls[c].name)
  }

  /** Such a run: a replacement with other contents reuses a signature, and the next load returns the old ones. */
  lemma ReusedSignatureIsStale() returns (parse: Parser, states: seq<Store>, steps: seq<Step>, c: Caller)
    ensures IsRun(parse, states, steps) && !FreshRun(states, steps)
    ensures var s := states[|states| - 1]; WasNeverThere(parse, s, c) && !Tells(parse, s.history)
  {
    parse, c := (n, b) => Some(b), 0;
    var d0, d1 := map["a" := File(7, "old")], map["a" := File(7, "old")]["a" := File(7, "new")];
    var entry := map["a" := Entry(7, "old")];
    steps := [DoStat(0, "a"), DoLookUp(0), DoRead(0), DoInsert(0), DoChange("a", File(7, "new")),
              DoStat(0, "a"), DoLookUp(0)];
    states := [
      Store([d0], map[], map[]),
      Store([d0], map[], map[0 := Statted("a", 0, 7)]),
      Store([d0], map[], map[0 := Missed("a", 0, 7)]),
      Store([d0], map[], map[0 := HasRead("a", 0, 7, Some("old"))]),
      Store([d0], entry, map[0 := Returned("a", 0, 0, Some("old"))]),
      Store([d0, d1], entry, map[0 := Returned("a", 0, 0, Some("old"))]),
      Store([d0, d1], entry, map[0 := Statted("a", 1, 7)]),
      Store([d0, d1], entry, map[0 := Returned("a", 1, 1, Some("old"))])];
    forall i | 0 <= i < |steps|
      ensures Enabled(states[i], steps[i]) && states[i + 1] == Take(states[i], parse, steps[i])
    {
    }
    assert HasSignature(states[4].history[0], "a", 7);
    assert !StepIsFresh(states[4], steps[4]);
    assert "old"[0] != "new"[0];
    assert !TellsBetween(parse, states[7].history, "a", 0, 0, 1);
  }

  // ----- one load by itself -----

  predicate Idle(s: Store, c: Caller) {
    s.history != [] && (c !in s.calls || s.calls[c].Returned?)
  }

  /** The steps of a load, one after the other. */
  function Load(parse: Parser, s: Store, c: Caller, name: Name): Store
    requires Idle(s, c)
  {
    var found := Take(s, parse, DoStat(c, name));
    if found.calls[c].Missing? then Take(found, parse, DoReturnMissing(c))
    else
      var seen := Take(found, parse, DoLookUp(c));
      if seen.calls[c].Returned? then seen else Take(Take(seen, parse, DoRead(c)), parse, DoInsert(c))
  }

  /** What the file's name leads to: the cached item, or what is parsed now. */
  lemma LoadIs(parse: Parser, s: Store, c: Caller, name: Name)
    requires Idle(s, c)
    ensures var t := Load(parse, s, c, name);
            var now, f := |s.history| - 1, FileAt(s.history[|s.history| - 1], name);
            && t.history == s.history
            && if !f.File? then t.cache == s.cache - {name} && t.calls == s.calls[c := Returned(name, now, now, None)]
               else if name in s.cache && s.cache[name].signature == f.signature then
                 && t.cache == s.cache
                 && t.calls == s.calls[c := Returned(name, now, now, Some(s.cache[name].item))]
               else
                 && t.calls == s.calls[c := Returned(name, now, now, parse(name, f.bytes))]
                 && match parse(name, f.bytes)
                    case Some(item) => t.cache == s.cache[name := Entry(f.signature, item)]
                    case None => t.cache == s.cache - {name}
  {
  }

  predicate Found(s: Store, c: Caller) {
    c in s.calls && s.calls[c].Returned? && s.calls[c].result.Some?
  }

  /** Once a load has given an item, the next one gives it again and parses nothing, while the file stays in place. */
  lemma LoadedIsCached(parse: Parser, other: Parser, s: Store, c: Caller, name: Name)
    requires Idle(s, c) && Found(Load(parse, s, c, name), c)
    ensures Idle(Load(parse, s, c, name), c)
    ensures Load(other, Load(parse, s, c, name), c, name) == Load(parse, s, c, name)
  {
    LoadIs(parse, s, c, name);
    hide Load;
    LoadIs(other, Load(parse, s, c, name), c, name);
  }

  /** What was dropped from the cache is parsed anew, whatever signature it has. */
  lemma EvictedIsParsed(parse: Parser, s: Store, c: Caller, name: Name)
    requires Idle(s, c)
    ensures var t := Take(s, parse, DoEvict(name));
            Idle(t, c) && Load(parse, t, c, name).calls[c].result == Parsed(parse, Now(s), name)
  {
    LoadIs(parse, Take(s, parse, DoEvict(name)), c, name);
    hide Load;
  }
}
