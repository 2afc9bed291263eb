/**
 * The operation history: the buys and sales already collected, with the hashes of
 * the unit files they came from. Unit files are named
 * `operation-history-<epoch second>-<hex digest>.json`; integrating a folder reads
 * the files whose hash is new, and merging replaces the history by another one.
 * Reading and writing JSON is not modelled: a folder is the list of its files'
 * names with the operations each holds, and a stored history is a value.
 */
module Operations {
  import opened Wrappers
  import opened Text
  import opened LinkedSet
  import opened Sorting
  import opened TsmParser

  const HISTORY_PREFIX := "operation-history"
  const MASTER_PREFIX := "operation-history-master-"

  /** A unit file of the history folder: its name and the operations it holds. */
  datatype HistoryFile = HistoryFile(name: string, operations: seq<Operation>)

  /** A history as saved in a master file. */
  datatype StoredHistory = StoredHistory(alreadyIntegratedHash: set<string>, operations: seq<Operation>)

  function TimeKey(o: Operation): real {
    o.time as real
  }

  /** extractHashFromFilename: after the last `-`, before the last `.`. */
  function ExtractHash(name: string): string {
    SubstringBeforeLast(SubstringAfterLast(name, "-"), ".")
  }

  /** The name saveOperationHistory gives to a unit file. */
  function SaveName(epochSecond: int, hex: string): string {
    HISTORY_PREFIX + "-" + LongToString(epochSecond) + "-" + hex + ".json"
  }

  /** Reading the hash back out of a saved name gives the digest that was written. */
  lemma ExtractSavedHash(epochSecond: int, hex: string)
    requires '-' !in hex && '.' !in hex
    ensures ExtractHash(SaveName(epochSecond, hex)) == hex
  {
    var head := HISTORY_PREFIX + "-" + LongToString(epochSecond);
    var tail := hex + ".json";
    var name := SaveName(epochSecond, hex);
    assert name == head + "-" + tail;
    forall k | |head| < k < |name| ensures name[k] != '-' {
      assert name[k] == tail[k - |head| - 1];
    }
    LastIndexOfChar(name, '-', |head|);
    assert name[|head| + 1..] == tail;
    forall k | |hex| < k < |tail| ensures tail[k] != '.' {
      assert tail[k] == "json"[k - |hex| - 1];
    }
    LastIndexOfChar(tail, '.', |hex|);
    assert tail[..|hex|] == hex;
  }

  /** integrateOperations reads a file when it is a history file with a hash not seen yet. */
  predicate Eligible(f: HistoryFile, hashes: set<string>) {
    StartsWith(f.name, HISTORY_PREFIX) && ExtractHash(f.name) !in hashes
  }

  predicate AnyEligible(folder: seq<HistoryFile>, hashes: set<string>) {
    exists i :: 0 <= i < |folder| && Eligible(folder[i], hashes)
  }

  /** The hashes of the eligible files. */
  function NewHashes(folder: seq<HistoryFile>, hashes: set<string>): set<string>
    decreases |folder|
  {
    if folder == [] then {}
    else
      var last := folder[|folder| - 1];
      NewHashes(folder[..|folder| - 1], hashes) + (if Eligible(last, hashes) then {ExtractHash(last.name)} else {})
  }

  /** A hash is new exactly when an eligible file carries it. */
  lemma NewHashesAre(folder: seq<HistoryFile>, hashes: set<string>, h: string)
    ensures h in NewHashes(folder, hashes) <==>
      exists i :: 0 <= i < |folder| && Eligible(folder[i], hashes) && ExtractHash(folder[i].name) == h
  {
    if h in NewHashes(folder, hashes) {
      NewHashesSound(folder, hashes, h);
    }
    if i :| 0 <= i < |folder| && Eligible(folder[i], hashes) && ExtractHash(folder[i].name) == h {
      NewHashesComplete(folder, hashes, i);
    }
  }

  lemma {:induction false} NewHashesSound(folder: seq<HistoryFile>, hashes: set<string>, h: string)
    requires h in NewHashes(folder, hashes)
    ensures exists i :: 0 <= i < |folder| && Eligible(folder[i], hashes) && ExtractHash(folder[i].name) == h
    decreases |folder|
  {
    var init := folder[..|folder| - 1];
    var last := folder[|folder| - 1];
    assert NewHashes(folder, hashes) == NewHashes(init, hashes) + (if Eligible(last, hashes) then {ExtractHash(last.name)} else {});
    if h in NewHashes(init, hashes) {
      NewHashesSound(init, hashes, h);
      var i :| 0 <= i < |init| && Eligible(init[i], hashes) && ExtractHash(init[i].name) == h;
      assert folder[i] == init[i];
    } else {
      assert Eligible(folder[|folder| - 1], hashes) && ExtractHash(folder[|folder| - 1].name) == h;
    }
  }

  lemma {:induction false} NewHashesComplete(folder: seq<HistoryFile>, hashes: set<string>, i: nat)
    requires i < |folder| && Eligible(folder[i], hashes)
    ensures ExtractHash(folder[i].name) in NewHashes(folder, hashes)
    decreases |folder|
  {
    var init := folder[..|folder| - 1];
    var last := folder[|folder| - 1];
    assert NewHashes(folder, hashes) == NewHashes(init, hashes) + (if Eligible(last, hashes) then {ExtractHash(last.name)} else {});
    if i < |init| {
      assert folder[i] == init[i];
      NewHashesComplete(init, hashes, i);
    }
  }

  /** The operations of the eligible files, file after file. */
  function NewOperations(folder: seq<HistoryFile>, hashes: set<string>): seq<Operation>
    decreases |folder|
  {
    if folder == [] then []
    else
      var last := folder[|folder| - 1];
      NewOperations(folder[..|folder| - 1], hashes) + (if Eligible(last, hashes) then last.operations else [])
  }

  /** Some hash is new exactly when some file is eligible. */
  lemma NewHashesEmpty(folder: seq<HistoryFile>, hashes: set<string>)
    ensures NewHashes(folder, hashes) != {} <==> AnyEligible(folder, hashes)
  {
    if AnyEligible(folder, hashes) {
      var i :| 0 <= i < |folder| && Eligible(folder[i], hashes);
      NewHashesAre(folder, hashes, ExtractHash(folder[i].name));
    }
    if NewHashes(folder, hashes) != {} {
      var h :| h in NewHashes(folder, hashes);
      NewHashesAre(folder, hashes, h);
    }
  }

  /** The de-duplicated operations, stably sorted by time. */
  function Normalize(operations: seq<Operation>): (r: seq<Operation>)
    ensures SortedBy(r, TimeKey) && Distinct(r)
    ensures forall o :: o in r <==> o in operations
  {
    var d := Dedup(operations);
    var r := SortBy(d, TimeKey);
    PermutationDistinct(d, r);
    assert forall o :: o in r <==> o in multiset(r);
    assert forall o :: o in d <==> o in multiset(d);
    r
  }

  /**
   * Operations of one time keep the order in which they first appear: Normalize
   * sorts the LinkedHashSet stably.
   */
  lemma NormalizeStable(operations: seq<Operation>, v: real)
    ensures WithKey(Normalize(operations), TimeKey, v) == Dedup(WithKey(operations, TimeKey, v))
  {
    SortByStable(Dedup(operations), TimeKey, v);
    DedupWithKey(operations, TimeKey, v);
  }

  /**
   * After an integration, the operations of one time are the new files' operations of
   * that time, in file order, then the older ones, each once.
   */
  lemma IntegratedStable(state: StoredHistory, folder: seq<HistoryFile>, v: real)
    requires NewHashes(folder, state.alreadyIntegratedHash) != {}
    ensures WithKey(Integrated(state, folder).operations, TimeKey, v) ==
      Dedup(WithKey(NewOperations(folder, state.alreadyIntegratedHash), TimeKey, v) + WithKey(state.operations, TimeKey, v))
  {
    var added := NewOperations(folder, state.alreadyIntegratedHash);
    NormalizeStable(added + state.operations, v);
    WithKeyAppend(added, state.operations, TimeKey, v);
  }

  /** A sorted history without repetitions is its own normal form. */
  lemma {:induction false} NormalizeNormal(operations: seq<Operation>)
    requires SortedBy(operations, TimeKey) && Distinct(operations)
    ensures Normalize(operations) == operations
  {
    DedupDistinct(operations);
    SortSorted(operations);
  }

  lemma {:induction false} SortSorted(s: seq<Operation>)
    requires SortedBy(s, TimeKey)
    ensures SortBy(s, TimeKey) == s
    decreases |s|
  {
    if s != [] {
      var rest := s[1..];
      assert SortedBy(rest, TimeKey) by {
        forall i, j | 0 <= i < j < |rest| ensures TimeKey(rest[i]) <= TimeKey(rest[j]) {
          assert rest[i] == s[i + 1] && rest[j] == s[j + 1];
        }
      }
      SortSorted(rest);
      assert rest == [] || TimeKey(s[0]) <= TimeKey(rest[0]);
    }
  }

  /** What integrateOperations leaves: the stored state after reading a folder. */
  function Integrated(state: StoredHistory, folder: seq<HistoryFile>): StoredHistory {
    var hashes := NewHashes(folder, state.alreadyIntegratedHash);
    if hashes != {} then
      StoredHistory(hashes + state.alreadyIntegratedHash,
                    Normalize(NewOperations(folder, state.alreadyIntegratedHash) + state.operations))
    else state
  }

  /** After one integration, integrating the same folder again finds nothing new. */
  lemma IntegrateAgain(state: StoredHistory, folder: seq<HistoryFile>)
    ensures !AnyEligible(folder, Integrated(state, folder).alreadyIntegratedHash)
    ensures Integrated(Integrated(state, folder), folder) == Integrated(state, folder)
  {
    var after := Integrated(state, folder).alreadyIntegratedHash;
    NewHashesEmpty(folder, state.alreadyIntegratedHash);
    forall i | 0 <= i < |folder| ensures !Eligible(folder[i], after) {
      if Eligible(folder[i], state.alreadyIntegratedHash) {
        NewHashesAre(folder, state.alreadyIntegratedHash, ExtractHash(folder[i].name));
      }
    }
    NewHashesEmpty(folder, after);
  }

  /** Integration only adds hashes, and keeps every operation it had. */
  lemma IntegrateGrows(state: StoredHistory, folder: seq<HistoryFile>)
    ensures state.alreadyIntegratedHash <= Integrated(state, folder).alreadyIntegratedHash
    ensures forall o :: o in state.operations ==> o in Integrated(state, folder).operations
  {
  }

  /** The history record of the server: two fields that integrate and merge replace. */
  class OperationHistory {
    var alreadyIntegratedHash: set<string>
    var operations: seq<Operation>

    /** An empty history. */
    constructor()
      ensures alreadyIntegratedHash == {} && operations == []
    {
      alreadyIntegratedHash := {};
      operations := [];
    }

    /** A history read from its saved form. */
    constructor Load(stored: StoredHistory)
      ensures alreadyIntegratedHash == stored.alreadyIntegratedHash && operations == stored.operations
    {
      alreadyIntegratedHash := stored.alreadyIntegratedHash;
      operations := stored.operations;
    }

    function State(): StoredHistory
      reads this
    {
      StoredHistory(alreadyIntegratedHash, operations)
    }

    /**
     * integrateOperations: reads every eligible file, and, when there was one, adds
     * their hashes and puts their operations before the old ones, without
     * repetitions and sorted by time. Answers whether anything was read.
     */
    method IntegrateOperations(folder: seq<HistoryFile>) returns (changed: bool)
      modifies this
      ensures changed <==> AnyEligible(folder, old(alreadyIntegratedHash))
      ensures changed ==>
        alreadyIntegratedHash == NewHashes(folder, old(alreadyIntegratedHash)) + old(alreadyIntegratedHash) &&
        operations == Normalize(NewOperations(folder, old(alreadyIntegratedHash)) + old(operations))
      ensures !changed ==> alreadyIntegratedHash == old(alreadyIntegratedHash) && operations == old(operations)
      ensures State() == Integrated(old(State()), folder)
    {
      // allOperations is a LinkedHashSet: collecting in order and removing
      // repetitions at the end (inside Normalize) gives the same elements in the same order.
      var allOperations: seq<Operation> := [];
      var hashes: set<string> := {};
      var i := 0;
      while i < |folder|
        invariant 0 <= i <= |folder|
        invariant hashes == NewHashes(folder[..i], alreadyIntegratedHash)
        invariant allOperations == NewOperations(folder[..i], alreadyIntegratedHash)
      {
        assert folder[..i + 1][..i] == folder[..i];
        if Eligible(folder[i], alreadyIntegratedHash) {
          hashes := hashes + {ExtractHash(folder[i].name)};
          allOperations := allOperations + folder[i].operations;
        }
        i := i + 1;
      }
      assert folder[..|folder|] == folder;
      NewHashesEmpty(folder, alreadyIntegratedHash);
      if hashes != {} {
        alreadyIntegratedHash := hashes + alreadyIntegratedHash;
        operations := Normalize(allOperations + operations);
      }
      changed := hashes != {};
    }

    /** merge: takes the other history's hashes and operations, dropping its own. */
    method Merge(other: OperationHistory)
      modifies this
      ensures alreadyIntegratedHash == old(other.alreadyIntegratedHash)
      ensures operations == Normalize(old(other.operations))
    {
      var allOperations := Dedup(other.operations);
      var hashes := other.alreadyIntegratedHash;
      DedupTwice(other.operations);
      alreadyIntegratedHash := hashes;
      operations := Normalize(allOperations);
    }
  }

  lemma DedupTwice(s: seq<Operation>)
    ensures Normalize(Dedup(s)) == Normalize(s)
  {
    DedupDistinct(Dedup(s));
  }

  /** merge on saved histories. */
  function Merged(other: StoredHistory): StoredHistory {
    StoredHistory(other.alreadyIntegratedHash, Normalize(other.operations))
  }

  /** The file name of this computer's master history. */
  function MasterName(computerName: string): string {
    MASTER_PREFIX + computerName + ".json"
  }

  /** loadOperationHistory: the history saved under a name, if there is one. */
  function LoadHistory(dataFolder: seq<(string, StoredHistory)>, name: string): (r: Option<StoredHistory>)
    ensures r.None? <==> forall i :: 0 <= i < |dataFolder| ==> dataFolder[i].0 != name
    decreases |dataFolder|
  {
    if dataFolder == [] then None
    else if dataFolder[0].0 == name then Some(dataFolder[0].1)
    else
      assert forall i :: 1 <= i < |dataFolder| ==> dataFolder[i] == dataFolder[1..][i - 1];
      LoadHistory(dataFolder[1..], name)
  }

  /** The history loaded is the one of the first file with that name. */
  lemma {:induction false} LoadHistoryFirst(dataFolder: seq<(string, StoredHistory)>, name: string, i: nat)
    requires i < |dataFolder| && dataFolder[i].0 == name
    requires forall j :: 0 <= j < i ==> dataFolder[j].0 != name
    ensures LoadHistory(dataFolder, name) == Some(dataFolder[i].1)
    decreases i
  {
    if i > 0 {
      var rest := dataFolder[1..];
      assert rest[i - 1] == dataFolder[i];
      forall j | 0 <= j < i - 1 ensures rest[j].0 != name {
        assert rest[j] == dataFolder[j + 1];
      }
      LoadHistoryFirst(rest, name, i - 1);
    }
  }

  /** A file of the data folder is another computer's master history. */
  predicate OtherMaster(name: string, computerName: string) {
    StartsWith(name, MASTER_PREFIX) && name != MasterName(computerName)
  }

  /** Some other computer's master file of the folder holds `h`. */
  predicate FromOtherMaster(dataFolder: seq<(string, StoredHistory)>, computerName: string, h: StoredHistory) {
    exists i :: 0 <= i < |dataFolder| && OtherMaster(dataFolder[i].0, computerName) && dataFolder[i].1 == h
  }

  /** The master files of the other computers, in folder order. */
  function OtherMasters(dataFolder: seq<(string, StoredHistory)>, computerName: string): (r: seq<StoredHistory>)
    ensures |r| <= |dataFolder|
    ensures forall h :: h in r ==> FromOtherMaster(dataFolder, computerName, h)
    ensures forall i :: 0 <= i < |dataFolder| && OtherMaster(dataFolder[i].0, computerName) ==> dataFolder[i].1 in r
    decreases |dataFolder|
  {
    if dataFolder == [] then []
    else
      var n := |dataFolder| - 1;
      var init, last := dataFolder[..n], dataFolder[n];
      var rest := OtherMasters(init, computerName);
      assert forall h :: FromOtherMaster(init, computerName, h) ==> FromOtherMaster(dataFolder, computerName, h) by {
        forall h | FromOtherMaster(init, computerName, h) ensures FromOtherMaster(dataFolder, computerName, h) {
          var i :| 0 <= i < |init| && OtherMaster(init[i].0, computerName) && init[i].1 == h;
          assert dataFolder[i] == init[i];
        }
      }
      assert OtherMaster(last.0, computerName) ==> FromOtherMaster(dataFolder, computerName, last.1);
      assert forall i :: 0 <= i < n ==> dataFolder[i] == init[i];
      rest + (if OtherMaster(last.0, computerName) then [last.1] else [])
  }

  /** The history loaded for this computer: its master file, or an empty history. */
  function MasterHistory(dataFolder: seq<(string, StoredHistory)>, computerName: string): StoredHistory {
    LoadHistory(dataFolder, MasterName(computerName)).GetOr(StoredHistory({}, []))
  }

  /**
   * The state after merging the histories one after the other, in order. As written,
   * a merge replaces the receiver's state by the other's, so the last one wins.
   */
  function MergeAll(state: StoredHistory, others: seq<StoredHistory>): (r: StoredHistory)
    ensures others == [] ==> r == state
    ensures others != [] ==> r == Merged(others[|others| - 1])
    decreases |others|
  {
    if others == [] then state
    else
      var rest := others[1..];
      assert rest != [] ==> rest[|rest| - 1] == others[|others| - 1];
      MergeAll(Merged(others[0]), rest)
  }

  /**
   * loadAndUpdateOperationHistory, without the final save: the master history (or
   * an empty one), merged with every other master file, then integrated with the
   * unit files.
   */
  method LoadAndUpdateOperationHistory(dataFolder: seq<(string, StoredHistory)>, computerName: string, unitaryFolder: seq<HistoryFile>)
    returns (history: OperationHistory)
    ensures fresh(history)
    ensures history.State() ==
      Integrated(MergeAll(MasterHistory(dataFolder, computerName), OtherMasters(dataFolder, computerName)), unitaryFolder)
  {
    var master := LoadHistory(dataFolder, MasterName(computerName));
    if master.Some? {
      history := new OperationHistory.Load(master.value);
    } else {
      history := new OperationHistory();
    }
    MergeEach(history, OtherMasters(dataFolder, computerName));
    var _ := history.IntegrateOperations(unitaryFolder);
  }

  /** The forEach over the other master files: merges each into the history in turn. */
  method MergeEach(history: OperationHistory, others: seq<StoredHistory>)
    modifies history
    ensures history.State() == MergeAll(old(history.State()), others)
  {
    ghost var start := history.State();
    var i := 0;
    while i < |others|
      invariant 0 <= i <= |others|
      invariant history.State() == MergeAll(start, others[..i])
    {
      var other := new OperationHistory.Load(others[i]);
      history.Merge(other);
      assert others[..i + 1][i] == others[i];
      i := i + 1;
    }
    assert others[..|others|] == others;
  }

  /** With no master file of its own, a computer starts from an empty history. */
  lemma MissingMaster(dataFolder: seq<(string, StoredHistory)>, computerName: string)
    requires forall i :: 0 <= i < |dataFolder| ==> dataFolder[i].0 != MasterName(computerName)
    ensures MasterHistory(dataFolder, computerName) == StoredHistory({}, [])
  {
  }

  /**
   * As written, merging discards the receiver: once another computer's master file
   * exists, this computer's own master history has no influence on the result.
   */
  lemma MasterDiscarded(a: StoredHistory, b: StoredHistory, others: seq<StoredHistory>, folder: seq<HistoryFile>)
    requires others != []
    ensures Integrated(MergeAll(a, others), folder) == Integrated(MergeAll(b, others), folder)
  {
  }
}
