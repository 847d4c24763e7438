/**
  The generator of the committed contract over one checkout, and what every run of edits,
  commits, checkouts and generator calls keeps true of the committed file.
 */
module PublicApiGenerator {
  import opened Prelude
  import opened JsonText
  import opened SortedStrings
  import opened PublicApiCodec
  import opened JsonLayout
  import opened CodecForms
  import opened PublicApiDerivation

  /** The contract file on disk: absent, not UTF-8, or a text. */
  datatype ContractFile = Missing | NotUtf8 | Content(text: string)

  datatype Snapshot = Snapshot(files: Files, contract: ContractFile)

  /** The working tree, the checked-out commit, and every commit by hash. */
  datatype World = World(files: Files, contract: ContractFile, head: PyStr, commits: map<PyStr, Snapshot>) {
    ghost predicate Valid()
    {
      head in commits && forall c :: c in commits ==> IsCommit(c)
    }

    function Head(): Snapshot
      requires head in commits
    {
      commits[head]
    }
  }

  function Load(parsers: Parsers, f: ContractFile): Option<Contract>
  {
    match f
    case Content(text) => Parse(parsers.isIdentifier, text)
    case _ => None
  }

  /** A file whose working text differs from the checked-out commit's, an untracked one included. */
  predicate Dirty(w: World, p: string)
    requires w.head in w.commits
  {
    p in w.files && (p !in w.Head().files || w.Head().files[p] != w.files[p])
  }

  datatype Exit = Code(code: nat) | Uncaught

  function Stamped(commit: PyStr, data: Data): Contract
  {
    Contract(Source(Points(REPOSITORY), commit, Points(GENERATOR_REL)), data)
  }

  /** The file is the canonical rendering of the derived data, with some recorded source. */
  ghost predicate Current(parsers: Parsers, w: World)
  {
    Derive(parsers, w.files).Derived?
    && exists s :: ValidSource(s) && w.contract == Content(Rendered(Contract(s, Derive(parsers, w.files).data)))
  }

  /** What a call without `--check` does; `read` are the files its derivation read. */
  ghost predicate Generates(parsers: Parsers, w: World, read: set<string>, w': World, exit: Exit)
    requires w.Valid()
  {
    match Derive(parsers, w.files)
    case Unresolvable => w' == w && exit == Code(1)
    case Invalid => w' == w && exit == Uncaught
    case Derived(data) =>
      var committed := Load(parsers, w.contract);
      && DeterminedBy(parsers, w.files, read, Derived(data)) && ReadsResolve(parsers, w.files, read)
      && if committed.Some? && committed.value.data == data then
           w' == w.(contract := Content(Rendered(committed.value))) && exit == Code(0)
         else if exists p :: p in read && Dirty(w, p) then w' == w && exit == Code(1)
         else w' == w.(contract := Content(Rendered(Stamped(w.head, data)))) && exit == Code(0)
  }

  lemma HasSource(parsers: Parsers, w: World, s: Source)
    requires Derive(parsers, w.files).Derived? && ValidSource(s)
    requires w.contract == Content(Rendered(Contract(s, Derive(parsers, w.files).data)))
    ensures Current(parsers, w)
  {}

  /** A file written with derived data is read back as the contract it was made from. */
  lemma WrittenLoads(parsers: Parsers, files: Files, s: Source)
    requires Derive(parsers, files).Derived? && ValidSource(s)
    ensures var c := Contract(s, Derive(parsers, files).data); Load(parsers, Content(Rendered(c))) == Some(c)
  {
    DerivedDataIsUnpaired(parsers, files);
    RenderedParses(parsers.isIdentifier, Contract(s, Derive(parsers, files).data));
  }

  /** A current file is read back as the derived data. */
  lemma CurrentLoads(parsers: Parsers, w: World)
    requires Current(parsers, w)
    ensures var committed := Load(parsers, w.contract);
      && committed.Some? && committed.value.data == Derive(parsers, w.files).data
      && w.contract == Content(Rendered(committed.value))
  {
    var data := Derive(parsers, w.files).data;
    var s :| ValidSource(s) && w.contract == Content(Rendered(Contract(s, data)));
    WrittenLoads(parsers, w.files, s);
  }

  /** The committed contract already carries what the files derive. */
  ghost predicate AlreadyCarried(parsers: Parsers, w: World)
  {
    Load(parsers, w.contract).Some? && Derive(parsers, w.files) == Derived(Load(parsers, w.contract).value.data)
  }

  /** Every file on these paths stands in the checked-out commit with the text it has here. */
  ghost predicate CommittedAsRead(w: World, read: set<string>)
    requires w.head in w.commits
  {
    forall p :: p in read ==> p in w.files && p in w.Head().files && w.Head().files[p] == w.files[p]
  }

  /**
    A call succeeds exactly when the contract already carries the derived data or every file read is
    committed as it was read. Then the file is current, with the old source in the first case and HEAD
    in the second; any other call leaves everything alone.
   */
  lemma GeneratesExactly(parsers: Parsers, w: World, read: set<string>, w': World, exit: Exit)
    requires w.Valid() && Generates(parsers, w, read, w', exit)
    ensures exit == Code(0) <==> Derive(parsers, w.files).Derived? && (AlreadyCarried(parsers, w) || CommittedAsRead(w, read))
    ensures exit == Uncaught <==> Derive(parsers, w.files).Invalid?
    ensures exit.Code? ==> exit.code <= 1
    ensures exit != Code(0) ==> w' == w
    ensures exit == Code(0) ==>
      var data, head := Derive(parsers, w.files).data, Source(Points("cerredz/Vidbyte-SDK"), w.head, Points("scripts/generate-sdk-public-api.py"));
      var source := if AlreadyCarried(parsers, w) then Load(parsers, w.contract).value.source else head;
      ValidSource(source) && w' == w.(contract := Content(Rendered(Contract(source, data)))) && Current(parsers, w')
  {
    forall p | p in read && Derive(parsers, w.files).Derived?
      ensures Dirty(w, p) <==> p !in w.Head().files || w.Head().files[p] != w.files[p]
    {
      assert p in w.files;
    }
    if exit == Code(0) {
      var data := Derive(parsers, w.files).data;
      if AlreadyCarried(parsers, w) {
        HasSource(parsers, w', Load(parsers, w.contract).value.source);
      } else {
        HasSource(parsers, w', Stamped(w.head, data).source);
      }
    }
  }

  class PublicApiContractGenerator {
    const parsers: Parsers
    var files: Files
    var contract: ContractFile
    var head: PyStr
    var commits: map<PyStr, Snapshot>

    function View(): World
      reads this
    {
      World(files, contract, head, commits)
    }

    constructor (parsers: Parsers, w: World)
      ensures this.parsers == parsers && View() == w
    {
      this.parsers := parsers;
      files, contract, head, commits := w.files, w.contract, w.head, w.commits;
    }

    method Run(check: bool) returns (exit: Exit, ghost read: set<string>)
      requires View().Valid()
      modifies this`contract
      ensures check ==> View() == old(View())
      ensures check ==> (exit == Code(0) <==> Current(parsers, View()))
      ensures check ==> (exit == Uncaught <==> Derive(parsers, files).Invalid?)
      ensures check && exit != Uncaught ==> exit == Code(0) || exit == Code(1)
      ensures !check ==> Generates(parsers, old(View()), read, View(), exit)
      ensures !check && Derive(parsers, files).Derived? ==>
        (exit == Code(0) <==> AlreadyCarried(parsers, old(View())) || CommittedAsRead(old(View()), read))
      ensures !check ==> if exit == Code(0) then Current(parsers, View()) else View() == old(View())
    {
      read := {};
      var deriver := new PublicApiDeriver(parsers, files);
      var derived, origins, inputs := deriver.DeriveNow();
      read := inputs;
      if derived.Invalid? {
        return Uncaught, read;
      }
      if derived.Unresolvable? {
        return Code(1), read;
      }
      var committed := Load(parsers, contract);
      if check {
        var code := Check(derived.data, committed);
        return Code(code), read;
      }
      if committed.Some? && committed.value.data == derived.data {
        RestoreCanonical(committed.value);
        exit := Code(0);
      } else if exists p :: p in inputs && Dirty(View(), p) {
        exit := Code(1);
      } else {
        var text := Render(Stamped(head, derived.data));
        contract := Content(text);
        exit := Code(0);
      }
      GeneratesExactly(parsers, old(View()), read, View(), exit);
    }

    /** Compares the committed copy field by field; exports are compared as sets. */
    method Check(derived: Data, committed: Option<Contract>) returns (code: nat)
      requires Derive(parsers, files) == Derived(derived) && committed == Load(parsers, contract)
      ensures code == 0 || code == 1
      ensures code == 0 <==> Current(parsers, View())
    {
      if Current(parsers, View()) {
        CurrentLoads(parsers, View());
      }
      if committed.None? {
        return 1;
      }
      var was, now := committed.value.data, derived;
      var added := (set x | x in now.exports) - (set x | x in was.exports);
      var removed := (set x | x in was.exports) - (set x | x in now.exports);
      var drift := added != {} || removed != {} || was.version != now.version || was.distribution != now.distribution;
      var canonical := Render(committed.value);
      if !drift {
        forall x ensures x in was.exports <==> x in now.exports {
          assert x in was.exports && x !in now.exports ==> x in removed;
          assert x in now.exports && x !in was.exports ==> x in added;
        }
        SameElementsSameList(was.exports, now.exports);
        assert was == now && committed.value == Contract(committed.value.source, derived);
        if contract == Content(canonical) {
          HasSource(parsers, View(), committed.value.source);
        }
      }
      return if drift || contract != Content(canonical) then 1 else 0;
    }

    /** Rewrites formatting drift only; the recorded commit stays. */
    method RestoreCanonical(c: Contract)
      requires Load(parsers, contract) == Some(c)
      modifies this`contract
      ensures contract == Content(Rendered(c))
    {
      var canonical := Render(c);
      if contract != Content(canonical) {
        contract := Content(canonical);
      }
    }
  }

  // ---------- one call ----------

  /** After a call that returned 0, the check passes and another call writes nothing. */
  lemma GenerateThenCheck(parsers: Parsers, w: World, read: set<string>, w': World)
    requires w.Valid() && Generates(parsers, w, read, w', Code(0))
    ensures w'.Valid() && Current(parsers, w')
    ensures forall read', w'', exit :: Generates(parsers, w', read', w'', exit) ==> w'' == w' && exit == Code(0)
  {
    var data := Derive(parsers, w.files).data;
    var committed := Load(parsers, w.contract);
    if committed.Some? && committed.value.data == data {
      HasSource(parsers, w', committed.value.source);
    } else {
      HasSource(parsers, w', Stamped(w.head, data).source);
    }
    CurrentLoads(parsers, w');
  }

  /** The recorded commit changes only when the data does, or when the old file was unreadable. */
  lemma CommitChangesWithData(parsers: Parsers, w: World, read: set<string>, w': World, exit: Exit)
    requires w.Valid() && Generates(parsers, w, read, w', exit)
    requires Load(parsers, w.contract).Some?
    ensures Load(parsers, w'.contract).Some?
    ensures var before, after := Load(parsers, w.contract).value, Load(parsers, w'.contract).value;
      (before.source != after.source ==> before.data != after.data && after.source.commit == w.head)
  {
    if exit == Code(0) {
      WrittenLoads(parsers, w.files, Load(parsers, w.contract).value.source);
      WrittenLoads(parsers, w.files, Stamped(w.head, Derive(parsers, w.files).data).source);
    }
  }

  /** Carriage returns in a current file are reported by the check and removed by the next call, which keeps the source. */
  lemma ConvertedCheckoutIsRestored(parsers: Parsers, w: World)
    requires w.Valid() && Current(parsers, w)
    ensures var converted := w.(contract := Content(Relaid("\r\n", w.contract.text)));
      && !Current(parsers, converted)
      && forall read, w', exit :: Generates(parsers, converted, read, w', exit) ==> w' == w && exit == Code(0)
  {
    CurrentLoads(parsers, w);
    DerivedDataIsUnpaired(parsers, w.files);
    CarriageReturnsAreSeen(parsers.isIdentifier, Load(parsers, w.contract).value);
  }

  // ---------- provenance over whole runs ----------

  /** A readable file names a commit whose files derive exactly the recorded data. */
  ghost predicate Sound(parsers: Parsers, commits: map<PyStr, Snapshot>, f: ContractFile)
  {
    var c := Load(parsers, f);
    c.Some? ==>
      c.value.source.commit in commits && Derive(parsers, commits[c.value.source.commit].files) == Derived(c.value.data)
  }

  /** The file on disk and the file in every commit are sound. */
  ghost predicate AllSound(parsers: Parsers, w: World)
  {
    && w.Valid() && Sound(parsers, w.commits, w.contract)
    && forall c :: c in w.commits ==> Sound(parsers, w.commits, w.commits[c].contract)
  }

  datatype Action =
    | Edit(files: Files)                        // change, add or remove any files but the contract
    | Disturb(contract: ContractFile)           // lose, damage or reformat the contract file
    | Commit(hash: PyStr, staged: Files, withContract: bool)    // any part of the tree, with or without the contract
    | Checkout(hash: PyStr, files: Files, withContract: bool)   // local edits may be carried over
    | Restore(hash: PyStr)                      // the contract file of some commit
    | Generate(read: set<string>, exit: Exit)
    | Check

  ghost predicate Takes(parsers: Parsers, w: World, a: Action, w': World)
    requires w.Valid()
  {
    match a
    case Edit(files) => w' == w.(files := files)
    case Disturb(contract) =>
      && (Load(parsers, contract).Some? ==> Load(parsers, contract) == Load(parsers, w.contract))
      && w' == w.(contract := contract)
    case Commit(hash, staged, withContract) =>
      var contract := if withContract then w.contract else w.Head().contract;
      && IsCommit(hash) && hash !in w.commits
      && w' == w.(head := hash, commits := w.commits[hash := Snapshot(staged, contract)])
    case Checkout(hash, files, withContract) =>
      && hash in w.commits
      && w' == w.(files := files, contract := if withContract then w.commits[hash].contract else w.contract, head := hash)
    case Restore(hash) => hash in w.commits && w' == w.(contract := w.commits[hash].contract)
    case Generate(read, exit) => Generates(parsers, w, read, w', exit) && LookupsStand(w.files, w.Head().files)
    case Check => w' == w
  }

  /** Clean inputs derive the same data in the checked-out commit. */
  lemma CleanInputsDeriveTheSame(parsers: Parsers, w: World, read: set<string>, d: Derivation)
    requires w.Valid() && DeterminedBy(parsers, w.files, read, d) && LookupsStand(w.files, w.Head().files)
    requires !exists p :: p in read && Dirty(w, p)
    ensures Derive(parsers, w.Head().files) == d
  {
    forall p | p in read ensures p in w.Head().files && w.Head().files[p] == w.files[p] {
      assert !Dirty(w, p);
    }
    assert SameFiles(w.files, w.Head().files, read);
  }

  lemma GenerateKeepsSound(parsers: Parsers, w: World, read: set<string>, w': World, exit: Exit)
    requires AllSound(parsers, w) && Generates(parsers, w, read, w', exit) && LookupsStand(w.files, w.Head().files)
    ensures AllSound(parsers, w')
  {
    if exit == Code(0) {
      var data, committed := Derive(parsers, w.files).data, Load(parsers, w.contract);
      if committed.Some? && committed.value.data == data {
        WrittenLoads(parsers, w.files, committed.value.source);
      } else {
        WrittenLoads(parsers, w.files, Stamped(w.head, data).source);
        CleanInputsDeriveTheSame(parsers, w, read, Derived(data));
      }
    }
  }

  lemma ActionKeepsSound(parsers: Parsers, w: World, a: Action, w': World)
    requires AllSound(parsers, w) && Takes(parsers, w, a, w')
    ensures AllSound(parsers, w')
  {
    match a
    case Generate(read, exit) => GenerateKeepsSound(parsers, w, read, w', exit);
    case _ =>
  }

  ghost predicate IsRun(parsers: Parsers, run: seq<World>, actions: seq<Action>)
  {
    && |run| == |actions| + 1
    && forall k :: 0 <= k < |actions| ==> run[k].Valid() && Takes(parsers, run[k], actions[k], run[k + 1])
  }

  /**
    Provenance over every run: whatever was edited, committed, checked out, damaged or
    regenerated, a readable contract names a commit whose files derive exactly its data.
   */
  lemma {:induction false} RunsKeepSound(parsers: Parsers, run: seq<World>, actions: seq<Action>)
    requires IsRun(parsers, run, actions) && AllSound(parsers, run[0])
    ensures AllSound(parsers, run[|run| - 1])
    decreases |actions|
  {
    if actions != [] {
      ActionKeepsSound(parsers, run[0], actions[0], run[1]);
      RunsKeepSound(parsers, run[1..], actions[1..]);
    }
  }
}
