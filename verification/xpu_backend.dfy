/**
 * The compiler-side bookkeeping of the XPU backend (`ExtensionBackend`):
 * extracting the kernel name from SPIR-V text, rewriting the stage table,
 * recording metadata, deriving the architecture descriptor from device
 * properties, and the launcher-stub cache.
 *
 * Device properties are inputs; the on-disk cache is a map from cache key
 * to file path, and the path the cache manager stores a new stub under is a
 * parameter.
 */
module XpuBackend {

  import opened Wrappers
  import opened Text
  import XpuLauncher

  datatype BackendError = AssertionFailed | IndexError | ZeroDivisionError

  // ---------------------------------------------------------------------
  // spirv_get_kernel_name
  // ---------------------------------------------------------------------

  /** A line that declares a name: it starts with `OpName` once stripped. */
  predicate IsNameLine(line: string) {
    StartsWith(Strip(line), "OpName")
  }

  /** `line.split()[-1]` of a name line. */
  function LastWord(line: string): string
    requires IsNameLine(line)
  {
    var ws := Words(Strip(line));
    ws[|ws| - 1]
  }

  /** The name a name line declares is a non-empty word without whitespace. */
  lemma LastWordNoBlanks(line: string)
    requires IsNameLine(line)
    ensures |LastWord(line)| > 0
    ensures forall j :: 0 <= j < |LastWord(line)| ==> !IsPyWhitespace(LastWord(line)[j])
  {
    var ws := Words(Strip(line));
    assert LastWord(line) == ws[|ws| - 1];
  }

  /** A line that defines an entry point: it contains the word `OpEntryPoint`. */
  predicate IsEntryLine(line: string) {
    ContainsWord(Strip(line), "OpEntryPoint")
  }

  /** An entry line with at least three tokens. */
  predicate HasEntryName(line: string) {
    IsEntryLine(line) && |Words(Strip(line))| >= 3
  }

  /** `line.split()[2][1:]`: the entry point's third token without its first character. */
  function EntryName(line: string): string
    requires HasEntryName(line)
  {
    Words(Strip(line))[2][1..]
  }

  /** An entry point's name is its third token less one character, so it holds no whitespace. */
  lemma EntryNameNoBlanks(line: string)
    requires HasEntryName(line)
    ensures forall j :: 0 <= j < |EntryName(line)| ==> !IsPyWhitespace(EntryName(line)[j])
    ensures |EntryName(line)| + 1 == |Words(Strip(line))[2]|
  {
    var w := Words(Strip(line))[2];
    assert forall j :: 0 <= j < |w| - 1 ==> EntryName(line)[j] == w[j + 1];
  }

  function Quote(name: string): string {
    "\"" + name + "\""
  }

  /** `decl_ops`: the last token of every name line, in order. */
  function DeclOps(lines: seq<string>): (r: seq<string>)
    ensures forall x :: x in r <==> DeclaredIn(lines, x)
    decreases |lines|
  {
    if |lines| == 0 then []
    else
      var init := lines[..|lines| - 1];
      var last := lines[|lines| - 1];
      DeclaresSnoc(lines);
      DeclOps(init) + (if IsNameLine(last) then [LastWord(last)] else [])
  }

  /** Line `i` is a name line whose last token is `x`. */
  predicate Declares(lines: seq<string>, i: int, x: string) {
    0 <= i < |lines| && IsNameLine(lines[i]) && LastWord(lines[i]) == x
  }

  /** Some line of `lines` is a name line whose last token is `x`. */
  ghost predicate DeclaredIn(lines: seq<string>, x: string) {
    exists i :: Declares(lines, i, x)
  }

  lemma DeclaresSnoc(lines: seq<string>)
    requires |lines| > 0
    ensures forall x :: DeclaredIn(lines, x) <==> DeclaredIn(lines[..|lines| - 1], x) || Declares(lines, |lines| - 1, x)
  {
    var init := lines[..|lines| - 1];
    forall x | DeclaredIn(lines, x)
      ensures DeclaredIn(init, x) || Declares(lines, |lines| - 1, x)
    {
      var i :| Declares(lines, i, x);
      if i < |init| {
        assert init[i] == lines[i];
        assert Declares(init, i, x);
      }
    }
    forall x, i | Declares(init, i, x)
      ensures Declares(lines, i, x)
    {
      assert init[i] == lines[i];
    }
  }

  /** Line `i` is an entry point named `x` whose quoted name is in `decls`. */
  predicate Defines(lines: seq<string>, decls: seq<string>, i: int, x: string) {
    0 <= i < |lines| && HasEntryName(lines[i]) && EntryName(lines[i]) == x && Quote(x) in decls
  }

  /**
   * `def_ops`: the names of the entry lines whose quoted name is declared,
   * in order; an entry line with fewer than three tokens is an IndexError.
   */
  function DefOps(lines: seq<string>, decls: seq<string>): (r: Result<seq<string>, BackendError>)
    ensures r.Failure? <==> exists i :: 0 <= i < |lines| && IsEntryLine(lines[i]) && !HasEntryName(lines[i])
    ensures r.Failure? ==> r.error == IndexError
    ensures r.Success? ==> forall x :: x in r.value <==> DefinedIn(lines, decls, x)
    decreases |lines|
  {
    if |lines| == 0 then Success([])
    else
      var init := lines[..|lines| - 1];
      var last := lines[|lines| - 1];
      assert forall i :: 0 <= i < |init| ==> init[i] == lines[i];
      DefinesSnoc(lines, decls);
      var defs :- DefOps(init, decls);
      if !IsEntryLine(last) then Success(defs)
      else if !HasEntryName(last) then Failure(IndexError)
      else if Quote(EntryName(last)) in decls then Success(defs + [EntryName(last)])
      else Success(defs)
  }

  /** Some line of `lines` is an entry point named `x` whose quoted name is in `decls`. */
  predicate DefinedIn(lines: seq<string>, decls: seq<string>, x: string) {
    exists i :: 0 <= i < |lines| && Defines(lines, decls, i, x)
  }

  lemma DefinesSnoc(lines: seq<string>, decls: seq<string>)
    requires |lines| > 0
    ensures forall x :: DefinedIn(lines, decls, x) <==>
              DefinedIn(lines[..|lines| - 1], decls, x) || Defines(lines, decls, |lines| - 1, x)
  {
    var init := lines[..|lines| - 1];
    forall x | DefinedIn(lines, decls, x)
      ensures DefinedIn(init, decls, x) || Defines(lines, decls, |lines| - 1, x)
    {
      var i :| 0 <= i < |lines| && Defines(lines, decls, i, x);
      if i < |init| {
        assert init[i] == lines[i];
        assert Defines(init, decls, i, x);
      }
    }
    forall x, i | Defines(init, decls, i, x)
      ensures Defines(lines, decls, i, x)
    {
      assert init[i] == lines[i];
    }
  }

  function Lines(spirv: string): seq<string> {
    Split(spirv, '\n')
  }

  /**
   * `spirv_get_kernel_name`: the name of the one entry point whose quoted
   * name some `OpName` line declares.
   */
  function KernelName(spirv: string): (r: Result<string, BackendError>)
    ensures |spirv| == 0 ==> r == Failure(AssertionFailed)
    ensures r.Success? ==> Quote(r.value) in DeclOps(Lines(spirv))
  {
    if |spirv| == 0 then Failure(AssertionFailed)
    else
      var defs :- DefOps(Lines(spirv), DeclOps(Lines(spirv)));
      if |defs| != 1 then Failure(AssertionFailed)
      else
        assert defs[0] in defs;
        Success(defs[0])
  }

  /**
   * The kernel name is defined by an entry line, and every declared entry
   * point has that name; a declared entry line without a name token fails.
   */
  lemma KernelNameUnique(spirv: string)
    requires KernelName(spirv).Success?
    ensures DefinedIn(Lines(spirv), DeclOps(Lines(spirv)), KernelName(spirv).value)
    ensures forall x :: DefinedIn(Lines(spirv), DeclOps(Lines(spirv)), x) ==> x == KernelName(spirv).value
  {
    OnlyDefinition(Lines(spirv), DeclOps(Lines(spirv)));
  }

  lemma OnlyDefinition(lines: seq<string>, decls: seq<string>)
    requires DefOps(lines, decls).Success? && |DefOps(lines, decls).value| == 1
    ensures DefinedIn(lines, decls, DefOps(lines, decls).value[0])
    ensures forall x :: DefinedIn(lines, decls, x) ==> x == DefOps(lines, decls).value[0]
  {
    var defs := DefOps(lines, decls).value;
    assert defs[0] in defs;
    forall x | DefinedIn(lines, decls, x)
      ensures x == defs[0]
    {
      assert x in defs;
    }
  }

  /** Line `j` is an entry line with a name whose quoted form is in `decls`. */
  predicate Defining(lines: seq<string>, decls: seq<string>, j: int) {
    0 <= j < |lines| && HasEntryName(lines[j]) && Quote(EntryName(lines[j])) in decls
  }

  lemma DefiningInit(lines: seq<string>, decls: seq<string>)
    requires |lines| > 0
    ensures forall j :: Defining(lines[..|lines| - 1], decls, j) <==> j < |lines| - 1 && Defining(lines, decls, j)
  {
    var init := lines[..|lines| - 1];
    forall j ensures Defining(init, decls, j) <==> j < |lines| - 1 && Defining(lines, decls, j) {
      if 0 <= j < |init| {
        assert init[j] == lines[j];
      }
    }
  }

  /** Without a defining line, `def_ops` is empty. */
  lemma {:induction false} DefOpsNone(lines: seq<string>, decls: seq<string>)
    requires DefOps(lines, decls).Success?
    requires forall j :: !Defining(lines, decls, j)
    ensures DefOps(lines, decls).value == []
    decreases |lines|
  {
    if |lines| > 0 {
      var init := lines[..|lines| - 1];
      forall j ensures !Defining(init, decls, j) {
        if 0 <= j < |init| {
          assert init[j] == lines[j];
          assert !Defining(lines, decls, j);
        }
      }
      DefOpsNone(init, decls);
      assert !Defining(lines, decls, |lines| - 1);
    }
  }

  /** With exactly one defining line, `def_ops` is that line's name alone. */
  lemma {:induction false} DefOpsSingle(lines: seq<string>, decls: seq<string>, i: int)
    requires DefOps(lines, decls).Success?
    requires Defining(lines, decls, i)
    requires forall j :: Defining(lines, decls, j) ==> j == i
    ensures DefOps(lines, decls).value == [EntryName(lines[i])]
    decreases |lines|
  {
    var init := lines[..|lines| - 1];
    forall j | 0 <= j < |init| ensures init[j] == lines[j] && (Defining(init, decls, j) <==> Defining(lines, decls, j)) {
      assert init[j] == lines[j];
    }
    if i == |lines| - 1 {
      DefOpsNone(init, decls);
    } else {
      DefOpsSingle(init, decls, i);
      assert !Defining(lines, decls, |lines| - 1);
    }
  }

  /** Two defining lines put two names in `def_ops`. */
  lemma {:induction false} DefOpsTwo(lines: seq<string>, decls: seq<string>, i: int, j: int)
    requires DefOps(lines, decls).Success?
    requires Defining(lines, decls, i) && Defining(lines, decls, j) && i < j
    ensures |DefOps(lines, decls).value| >= 2
    decreases |lines|
  {
    var init := lines[..|lines| - 1];
    DefiningInit(lines, decls);
    if j == |lines| - 1 {
      assert init[i] == lines[i];
      assert Defines(init, decls, i, EntryName(init[i]));
      assert EntryName(init[i]) in DefOps(init, decls).value;
    } else {
      DefOpsTwo(init, decls, i, j);
    }
  }

  /**
   * The converse of `KernelName`'s contract: non-empty text whose entry
   * lines all have a name token, with exactly one entry line whose quoted
   * name is declared, yields that line's name.
   */
  lemma KernelNameFound(spirv: string, i: int)
    requires |spirv| > 0
    requires forall j :: 0 <= j < |Lines(spirv)| && IsEntryLine(Lines(spirv)[j]) ==> HasEntryName(Lines(spirv)[j])
    requires Defining(Lines(spirv), DeclOps(Lines(spirv)), i)
    requires forall j :: Defining(Lines(spirv), DeclOps(Lines(spirv)), j) ==> j == i
    ensures KernelName(spirv) == Success(EntryName(Lines(spirv)[i]))
  {
    DefOpsSingle(Lines(spirv), DeclOps(Lines(spirv)), i);
  }

  /** Two entry lines with declared names fail the one-kernel assertion, even when they name the same kernel. */
  lemma KernelNameAmbiguous(spirv: string, i: int, j: int)
    requires Defining(Lines(spirv), DeclOps(Lines(spirv)), i) && Defining(Lines(spirv), DeclOps(Lines(spirv)), j)
    requires i != j
    ensures KernelName(spirv).Failure?
  {
    if |spirv| > 0 && DefOps(Lines(spirv), DeclOps(Lines(spirv))).Success? {
      if i < j {
        DefOpsTwo(Lines(spirv), DeclOps(Lines(spirv)), i, j);
      } else {
        DefOpsTwo(Lines(spirv), DeclOps(Lines(spirv)), j, i);
      }
    }
  }

  /** Without an entry line whose quoted name is declared, there is no kernel name. */
  lemma KernelNameMissing(spirv: string)
    requires forall j :: !Defining(Lines(spirv), DeclOps(Lines(spirv)), j)
    ensures KernelName(spirv).Failure?
  {
    if |spirv| > 0 && DefOps(Lines(spirv), DeclOps(Lines(spirv))).Success? {
      DefOpsNone(Lines(spirv), DeclOps(Lines(spirv)));
    }
  }

  /** The first pass: collect the declared names. */
  method CollectDeclOps(lines: seq<string>) returns (declOps: seq<string>)
    ensures declOps == DeclOps(lines)
  {
    declOps := [];
    var i := 0;
    while i < |lines|
      invariant 0 <= i <= |lines|
      invariant declOps == DeclOps(lines[..i])
    {
      var line := Strip(lines[i]);
      assert lines[..i + 1][..i] == lines[..i];
      if StartsWith(line, "OpName") {
        var ws := Words(line);
        declOps := declOps + [ws[|ws| - 1]];
      }
      i := i + 1;
    }
    assert lines[..|lines|] == lines;
  }

  /** The second pass: collect the declared entry points. */
  method CollectDefOps(lines: seq<string>, declOps: seq<string>) returns (r: Result<seq<string>, BackendError>)
    ensures r == DefOps(lines, declOps)
  {
    var defOps: seq<string> := [];
    var i := 0;
    while i < |lines|
      invariant 0 <= i <= |lines|
      invariant DefOps(lines[..i], declOps) == Success(defOps)
    {
      var line := Strip(lines[i]);
      assert lines[..i + 1][..i] == lines[..i];
      if ContainsWord(line, "OpEntryPoint") {
        var ws := Words(line);
        if |ws| < 3 {
          assert lines[..i + 1][i] == lines[i];
          assert DefOps(lines[..i + 1], declOps).Failure?;
          assert DefOps(lines, declOps).Failure? by {
            assert IsEntryLine(lines[i]) && !HasEntryName(lines[i]);
          }
          return Failure(IndexError);
        }
        var defOp := ws[2][1..];
        if Quote(defOp) in declOps {
          defOps := defOps + [defOp];
        }
      }
      i := i + 1;
    }
    assert lines[..|lines|] == lines;
    return Success(defOps);
  }

  /** `spirv_get_kernel_name`, with its two passes over the lines. */
  method SpirvGetKernelName(spirv: string) returns (r: Result<string, BackendError>)
    ensures r == KernelName(spirv)
  {
    if |spirv| == 0 {
      return Failure(AssertionFailed);
    }
    var lines := Split(spirv, '\n');
    var declOps := CollectDeclOps(lines);
    var defOps := CollectDefOps(lines, declOps);
    if defOps.Failure? {
      return Failure(defOps.error);
    }
    if |defOps.value| != 1 {
      return Failure(AssertionFailed);
    }
    return Success(defOps.value[0]);
  }

  // ---------------------------------------------------------------------
  // add_stages
  // ---------------------------------------------------------------------

  /** A compilation stage; the lambdas the backend installs are recorded by what they capture. */
  datatype Stage = Inherited(id: nat) | ToSpirv(arch: nat, externLibs: nat) | ToSpvbin(arch: nat)

  const FrontEndStages: set<string> := {"ast", "ttir", "ttgir"}

  /** The keys of `ks` that are in `s`, in order. */
  function Keep(ks: seq<string>, s: set<string>): (r: seq<string>)
    ensures forall k :: k in r <==> k in ks && k in s
    ensures |r| <= |ks|
    decreases |ks|
  {
    if |ks| == 0 then []
    else if ks[0] in s then [ks[0]] + Keep(ks[1..], s)
    else Keep(ks[1..], s)
  }

  /** The keys of `ks` that are not in `s`, in order. */
  function Drop(ks: seq<string>, s: set<string>): (r: seq<string>)
    ensures forall k :: k in r <==> k in ks && k !in s
    decreases |ks|
  {
    if |ks| == 0 then []
    else if ks[0] in s then Drop(ks[1..], s)
    else [ks[0]] + Drop(ks[1..], s)
  }

  function Elems(ks: seq<string>): set<string> {
    set k | k in ks
  }

  predicate NoDuplicates(ks: seq<string>) {
    forall i, j :: 0 <= i < j < |ks| ==> ks[i] != ks[j]
  }

  lemma {:induction false} DropTwice(ks: seq<string>, s: set<string>, t: set<string>)
    ensures Drop(Drop(ks, s), t) == Drop(ks, s + t)
    decreases |ks|
  {
    if |ks| > 0 {
      DropTwice(ks[1..], s, t);
    }
  }

  /** Dropping the keys outside `s` keeps those in `s`. */
  lemma {:induction false} DropComplement(ks: seq<string>, s: set<string>, out: set<string>)
    requires forall k :: k in ks ==> (k in out <==> k !in s)
    ensures Drop(ks, out) == Keep(ks, s)
    decreases |ks|
  {
    if |ks| > 0 {
      assert ks[0] in ks;
      DropComplement(ks[1..], s, out);
    }
  }

  lemma {:induction false} KeepNoDuplicates(ks: seq<string>, s: set<string>)
    requires NoDuplicates(ks)
    ensures NoDuplicates(Keep(ks, s))
    decreases |ks|
  {
    if |ks| > 0 {
      KeepNoDuplicates(ks[1..], s);
      assert ks[0] !in ks[1..];
    }
  }

  lemma {:induction false} DropNoDuplicates(ks: seq<string>, s: set<string>)
    requires NoDuplicates(ks)
    ensures NoDuplicates(Drop(ks, s))
    decreases |ks|
  {
    if |ks| > 0 {
      DropNoDuplicates(ks[1..], s);
      assert ks[0] !in ks[1..];
    }
  }

  lemma {:induction false} KeepAppend(a: seq<string>, b: seq<string>, s: set<string>)
    ensures Keep(a + b, s) == Keep(a, s) + Keep(b, s)
    decreases |a|
  {
    if |a| > 0 {
      assert (a + b)[1..] == a[1..] + b;
      assert (a + b)[0] == a[0];
      KeepAppend(a[1..], b, s);
    } else {
      assert a + b == b;
    }
  }

  lemma {:induction false} KeepKept(ks: seq<string>, s: set<string>)
    ensures Keep(Keep(ks, s), s) == Keep(ks, s)
    decreases |ks|
  {
    if |ks| > 0 {
      KeepKept(ks[1..], s);
    }
  }

  /** The stage keys after `add_stages`: the front-end stages present, then `spirv` and `spvbin`. */
  function StagesAfter(keys: seq<string>): seq<string> {
    Keep(keys, FrontEndStages) + ["spirv", "spvbin"]
  }

  /** `add_stages` is idempotent on the stage keys. */
  lemma {:induction false} AddStagesIdempotent(keys: seq<string>)
    ensures StagesAfter(StagesAfter(keys)) == StagesAfter(keys)
  {
    KeepAppend(Keep(keys, FrontEndStages), ["spirv", "spvbin"], FrontEndStages);
    KeepKept(keys, FrontEndStages);
    assert Keep(["spirv", "spvbin"], FrontEndStages) == [];
  }

  /** The `stages` dictionary: its keys in insertion order and the stage under each. */
  class StageTable {
    var keys: seq<string>
    var stages: map<string, Stage>

    ghost predicate Valid()
      reads this
    {
      (forall k :: k in stages <==> k in keys) && NoDuplicates(keys)
    }

    constructor (keys0: seq<string>, stages0: map<string, Stage>)
      requires (forall k :: k in stages0 <==> k in keys0) && NoDuplicates(keys0)
      ensures Valid() && keys == keys0 && stages == stages0
    {
      keys := keys0;
      stages := stages0;
    }

    /** `stages.pop(key)`. */
    method Pop(key: string)
      requires Valid() && key in stages
      modifies this
      ensures Valid()
      ensures keys == Drop(old(keys), {key})
      ensures stages == old(stages) - {key}
    {
      DropNoDuplicates(keys, {key});
      keys := Drop(keys, {key});
      stages := stages - {key};
    }

    /** `stages[key] = stage`: a new key goes last, an existing one keeps its place. */
    method Put(key: string, stage: Stage)
      requires Valid()
      modifies this
      ensures Valid()
      ensures keys == if key in old(stages) then old(keys) else old(keys) + [key]
      ensures stages == old(stages)[key := stage]
    {
      if key !in stages {
        keys := keys + [key];
      }
      stages := stages[key := stage];
    }

    /** `stages.pop(k)` for every `k` of `ks`, in order. */
    method PopEach(ks: seq<string>)
      requires Valid() && NoDuplicates(ks)
      requires forall k :: k in ks ==> k in stages
      modifies this
      ensures Valid()
      ensures keys == Drop(old(keys), Elems(ks))
      ensures stages == old(stages) - Elems(ks)
    {
      ghost var keys0, stages0 := keys, stages;
      var j := 0;
      while j < |ks|
        invariant 0 <= j <= |ks|
        invariant Valid()
        invariant keys == PoppedKeys(keys0, ks, j) && stages == PoppedStages(stages0, ks, j)
      {
        PoppedIsMinus(keys0, stages0, ks, j);
        ElemsSnoc(ks, j);
        Pop(ks[j]);
        j := j + 1;
      }
      PoppedIsMinus(keys0, stages0, ks, j);
      assert ks[..j] == ks;
    }

    /**
     * `add_stages`: drop every stage other than ast/ttir/ttgir, then install
     * the SPIR-V translation and the SPIR-V binary compilation.
     */
    method AddStages(arch: nat, externLibs: nat)
      requires Valid()
      modifies this
      ensures Valid()
      ensures keys == StagesAfter(old(keys))
      ensures forall k :: k in Keep(old(keys), FrontEndStages) ==> stages[k] == old(stages)[k]
      ensures stages["spirv"] == ToSpirv(arch, externLibs) && stages["spvbin"] == ToSpvbin(arch)
    {
      ghost var keys0, stages0 := keys, stages;
      KeepOnly(FrontEndStages);
      assert "spirv" !in stages && "spvbin" !in stages;
      ghost var kept := stages;
      Put("spirv", ToSpirv(arch, externLibs));
      Put("spvbin", ToSpvbin(arch));
      assert stages == kept["spirv" := ToSpirv(arch, externLibs)]["spvbin" := ToSpvbin(arch)];
      forall k | k in Keep(keys0, FrontEndStages)
        ensures stages[k] == stages0[k]
      {
        assert k in kept;
      }
    }

    /** Pop every stage whose key is outside `s`, in key order. */
    method KeepOnly(s: set<string>)
      requires Valid()
      modifies this
      ensures Valid()
      ensures keys == Keep(old(keys), s)
      ensures forall k :: k in stages ==> k in s && k in old(stages) && stages[k] == old(stages)[k]
    {
      var keys0 := keys;
      var filterOut := Drop(keys, s);
      DropNoDuplicates(keys, s);
      PopEach(filterOut);
      DropComplement(keys0, s, Elems(filterOut));
    }
  }

  /** The keys before position `j + 1` are those before `j` and key `j`, which no earlier position repeats. */
  lemma ElemsSnoc(ks: seq<string>, j: nat)
    requires j < |ks| && NoDuplicates(ks)
    ensures Elems(ks[..j + 1]) == Elems(ks[..j]) + {ks[j]}
    ensures ks[j] !in Elems(ks[..j])
  {
    assert ks[..j + 1] == ks[..j] + [ks[j]];
  }

  /** The keys after popping `ks[0] .. ks[j - 1]` one at a time. */
  function PoppedKeys(keys: seq<string>, ks: seq<string>, j: nat): seq<string>
    requires j <= |ks|
  {
    if j == 0 then keys else Drop(PoppedKeys(keys, ks, j - 1), {ks[j - 1]})
  }

  /** The stages after popping `ks[0] .. ks[j - 1]` one at a time. */
  function PoppedStages(stages: map<string, Stage>, ks: seq<string>, j: nat): map<string, Stage>
    requires j <= |ks|
  {
    if j == 0 then stages else PoppedStages(stages, ks, j - 1) - {ks[j - 1]}
  }

  /** Popping the first `j` keys one at a time removes exactly those keys. */
  lemma {:induction false} PoppedIsMinus(keys: seq<string>, stages: map<string, Stage>, ks: seq<string>, j: nat)
    requires j <= |ks|
    ensures PoppedKeys(keys, ks, j) == Drop(keys, Elems(ks[..j]))
    ensures PoppedStages(stages, ks, j) == stages - Elems(ks[..j])
  {
    if j == 0 {
      DropNothing(keys);
      assert Elems(ks[..0]) == {};
    } else {
      PoppedIsMinus(keys, stages, ks, j - 1);
      var popped := Elems(ks[..j - 1]);
      assert ks[..j] == ks[..j - 1] + [ks[j - 1]];
      assert Elems(ks[..j]) == popped + {ks[j - 1]};
      DropTwice(keys, popped, {ks[j - 1]});
      MinusSnoc(stages, popped, ks[j - 1]);
    }
  }

  lemma MinusSnoc(m: map<string, Stage>, s: set<string>, k: string)
    ensures m - (s + {k}) == (m - s) - {k}
  {
  }

  lemma DropNothing(ks: seq<string>)
    ensures Drop(ks, {}) == ks
  {
  }

  // ---------------------------------------------------------------------
  // add_meta_info
  // ---------------------------------------------------------------------

  datatype MetaValue = Str(s: string) | Int(i: int)

  /** A Python dictionary from strings to metadata values. */
  class MetaDict {
    var entries: map<string, MetaValue>

    constructor (entries0: map<string, MetaValue>)
      ensures entries == entries0
    {
      entries := entries0;
    }

    method Put(key: string, value: MetaValue)
      modifies this
      ensures entries == old(entries)[key := value]
    {
      entries := entries[key := value];
    }
  }

  /**
   * `add_meta_info`: after the SPIR-V stage, record the kernel name and,
   * unless already present, the shared-memory size; after the binary stage,
   * record the binary. A failing name extraction raises before any change.
   */
  method AddMetaInfo(ir: string, moduleSharedMemory: int, nextModule: string, metadata: MetaDict, asm: MetaDict)
    returns (r: Result<(), BackendError>)
    requires metadata != asm
    modifies metadata, asm
    ensures ir == "spirv" ==> (r.Failure? <==> KernelName(nextModule).Failure?)
    ensures ir == "spirv" && r.Failure? ==> metadata.entries == old(metadata.entries)
    ensures ir == "spirv" && r.Success? ==>
              metadata.entries == old(metadata.entries)["name" := Str(KernelName(nextModule).value)]
                                  ["shared" := if "shared" in old(metadata.entries) then old(metadata.entries)["shared"]
                                               else Int(moduleSharedMemory)]
    ensures ir != "spirv" ==> r.Success? && metadata.entries == old(metadata.entries)
    ensures ir == "spvbin" ==> asm.entries == old(asm.entries)["spvbin" := Str(nextModule)]
    ensures ir != "spvbin" ==> asm.entries == old(asm.entries)
  {
    r := Success(());
    if ir == "spirv" {
      var name := SpirvGetKernelName(nextModule);
      if name.Failure? {
        return Failure(name.error);
      }
      metadata.Put("name", Str(name.value));
      if "shared" !in metadata.entries {
        metadata.Put("shared", Int(moduleSharedMemory));
      }
    }
    if ir == "spvbin" {
      asm.Put(ir, Str(nextModule));
    }
  }

  // ---------------------------------------------------------------------
  // get_architecture_descriptor
  // ---------------------------------------------------------------------

  /** Python's `a // b`: division rounding toward negative infinity. */
  function FloorDiv(a: int, b: int): (q: int)
    requires b != 0
    ensures b > 0 ==> q * b <= a < (q + 1) * b
    ensures b < 0 ==> (q + 1) * b < a <= q * b
  {
    if b > 0 then a / b else (-a) / (-b)
  }

  datatype Capability = Capability(numWarps: int, threadsPerWarp: int)

  /**
   * `get_architecture_descriptor`: the largest subgroup size as the warp
   * size, and as many warps as fit in a work group, which must stay below
   * the subgroup limit.
   */
  function GetArchitectureDescriptor(maxWorkGroupSize: int, maxNumSubgroup: int, subgroupSizes: seq<int>)
    : (r: Result<Capability, BackendError>)
    ensures |subgroupSizes| == 0 ==> r == Failure(IndexError)
    ensures |subgroupSizes| > 0 && subgroupSizes[|subgroupSizes| - 1] == 0 ==> r == Failure(ZeroDivisionError)
    ensures r.Success? ==> r.value.threadsPerWarp == subgroupSizes[|subgroupSizes| - 1]
    ensures r.Success? ==> r.value.numWarps < maxNumSubgroup
    ensures r.Success? && r.value.threadsPerWarp > 0 ==>
              r.value.numWarps * r.value.threadsPerWarp <= maxWorkGroupSize < (r.value.numWarps + 1) * r.value.threadsPerWarp
    ensures r.Failure? && |subgroupSizes| > 0 && subgroupSizes[|subgroupSizes| - 1] != 0 ==>
              r == Failure(AssertionFailed) &&
              FloorDiv(maxWorkGroupSize, subgroupSizes[|subgroupSizes| - 1]) >= maxNumSubgroup
  {
    if |subgroupSizes| == 0 then Failure(IndexError)
    else
      var threadsPerWarp := subgroupSizes[|subgroupSizes| - 1];
      if threadsPerWarp == 0 then Failure(ZeroDivisionError)
      else
        var numWarps := FloorDiv(maxWorkGroupSize, threadsPerWarp);
        if !(numWarps < maxNumSubgroup) then Failure(AssertionFailed)
        else Success(Capability(numWarps, threadsPerWarp))
  }

  // ---------------------------------------------------------------------
  // make_launcher_stub
  // ---------------------------------------------------------------------

  /** What the stub's cache key and file name are made of. */
  datatype StubKey = StubKey(signature: seq<string>, constants: set<int>, soName: string)

  /** The launcher-stub cache: the stored file per key, and how many stubs were built. */
  class StubCache {
    var files: map<StubKey, string>
    var builds: nat

    constructor ()
      ensures files == map[] && builds == 0
    {
      files := map[];
      builds := 0;
    }

    /**
     * `make_launcher_stub`: a cached stub is returned without building;
     * otherwise the launcher source is generated, built once and stored
     * under the path `store` gives for the key.
     */
    method MakeLauncherStub(name: string, signature: seq<string>, constants: set<int>, store: StubKey -> string)
      returns (r: Result<string, XpuLauncher.LookupError>)
      modifies this
      ensures var key := StubKey(signature, constants, name + ".so");
              key in old(files) ==> r == Success(old(files)[key]) && files == old(files) && builds == old(builds)
      ensures var key := StubKey(signature, constants, name + ".so");
              key !in old(files) && XpuLauncher.GenerateLauncher(constants, signature).Failure? ==>
                r.Failure? && files == old(files) && builds == old(builds)
      ensures var key := StubKey(signature, constants, name + ".so");
              key !in old(files) && XpuLauncher.GenerateLauncher(constants, signature).Success? ==>
                r == Success(store(key)) && files == old(files)[key := store(key)] && builds == old(builds) + 1
      ensures r.Success? ==> (StubKey(signature, constants, name + ".so") in files &&
                              files[StubKey(signature, constants, name + ".so")] == r.value)
    {
      var key := StubKey(signature, constants, name + ".so");
      if key in files {
        return Success(files[key]);
      }
      var src := XpuLauncher.GenerateLauncher(constants, signature);
      if src.Failure? {
        return Failure(src.error);
      }
      builds := builds + 1;
      var path := store(key);
      files := files[key := path];
      return Success(path);
    }
  }
}
