/**
 * Launcher signature compilation of the benchmark launcher (`make_launcher`):
 * Triton type tags are mapped to the C types the generated `launch` declares
 * and to `PyArg_ParseTuple` format codes, `constexpr` entries are dropped,
 * list tags are flattened, and the surviving leaves are re-indexed densely.
 *
 * `ty_to_cpp` and `parse_list_string` come from modules that are not part of
 * this model: `ty_to_cpp` is a parameter (`None` standing for its `KeyError`)
 * and a list tag is given already parsed, as a `ListTag`.
 */
module LauncherSignature {

  import opened Wrappers
  import opened Text

  /** A Triton signature type tag: a leaf such as `"*fp32"`, `"i32"`, `"none"`, or a list tag `"[t0,t1]"`. */
  datatype TypeTag = Leaf(name: string) | ListTag(elems: seq<TypeTag>)

  /** The result of `_extracted_type`: a C type name, or a list of them (rendered `"[c0,c1]"`). */
  datatype CType = CName(name: string) | CList(elems: seq<CType>)

  datatype SignatureError =
    | EmptyTag                 // `ty[0]` on an empty string: IndexError
    | UnknownCppType(tag: string)  // `ty_to_cpp` has no entry: KeyError
    | UnknownFormat(ctype: string) // `format_of`'s table has no entry: KeyError

  /** `ty_to_cpp` as imported by the benchmark launcher; `None` is its KeyError. */
  type TyToCpp = string -> Option<string>

  /** Tags that the launcher passes as `PyObject*` and resolves with `getPointer`. */
  predicate IsPointerLike(name: string) {
    (|name| > 0 && name[0] == '*') || name == "none"
  }

  /** `_extracted_type`: the C type `launch` declares for a tag. */
  function ExtractedType(t: TypeTag, cpp: TyToCpp): (r: Result<CType, SignatureError>)
    ensures t.Leaf? && |t.name| == 0 ==> r == Failure(EmptyTag)
    ensures t.Leaf? && IsPointerLike(t.name) ==> r == Success(CName("PyObject*"))
    ensures t.Leaf? && |t.name| > 0 && !IsPointerLike(t.name) ==>
              (r.Success? <==> cpp(t.name).Some?) && (r.Success? ==> r.value == CName(cpp(t.name).value))
    ensures t.ListTag? && r.Success? ==> r.value.CList? && |r.value.elems| == |t.elems|
    decreases t, 1
  {
    match t
    case Leaf(n) =>
      if |n| == 0 then Failure(EmptyTag)
      else if IsPointerLike(n) then Success(CName("PyObject*"))
      else if cpp(n).None? then Failure(UnknownCppType(n))
      else Success(CName(cpp(n).value))
    case ListTag(es) =>
      var cs :- ExtractedTypes(es, cpp);
      Success(CList(cs))
  }

  /** `map(_extracted_type, tys)`, failing at the first failing element. */
  function ExtractedTypes(ts: seq<TypeTag>, cpp: TyToCpp): (r: Result<seq<CType>, SignatureError>)
    ensures r.Success? ==> |r.value| == |ts|
    decreases ts, 0
  {
    if |ts| == 0 then Success([])
    else
      var c :- ExtractedType(ts[0], cpp);
      var cs :- ExtractedTypes(ts[1..], cpp);
      Success([c] + cs)
  }

  /** The rendered C type of `_extracted_type`: a list is `"[" + comma-joined element types + "]"`. */
  function CText(c: CType): string
    decreases c, 1
  {
    match c
    case CName(n) => n
    case CList(cs) => "[" + Join(",", CTexts(cs)) + "]"
  }

  function CTexts(cs: seq<CType>): (r: seq<string>)
    ensures |r| == |cs|
    decreases cs, 0
  {
    if |cs| == 0 then [] else [CText(cs[0])] + CTexts(cs[1..])
  }

  /** The fixed scalar table of `format_of`. */
  function ScalarCode(c: string): (r: Option<string>)
    ensures r.Some? ==> |r.value| == 1
  {
    if c == "PyObject*" then Some("O")
    else if c == "float" then Some("f")
    else if c == "double" then Some("d")
    else if c == "long" then Some("l")
    else if c == "int8_t" then Some("b")
    else if c == "int16_t" then Some("h")
    else if c == "int32_t" then Some("i")
    else if c == "int64_t" then Some("L")
    else if c == "uint8_t" then Some("B")
    else if c == "uint16_t" then Some("H")
    else if c == "uint32_t" then Some("I")
    else if c == "uint64_t" then Some("K")
    else None
  }

  /** The code `format_of` gives a C type name: `"void*"` first, then the table. */
  function CodeOf(c: string): (r: Option<string>)
    ensures r.Some? ==> |r.value| == 1 && r.value[0] !in Parens
  {
    if c == "void*" then Some("O") else ScalarCode(c)
  }

  const Parens: set<char> := {'(', ')'}

  /** The C type names of a `CType`, left to right. */
  function CNames(c: CType): seq<string>
    decreases c, 1
  {
    match c
    case CName(n) => [n]
    case CList(cs) => CNamesOf(cs)
  }

  function CNamesOf(cs: seq<CType>): seq<string>
    decreases cs, 0
  {
    if |cs| == 0 then [] else CNames(cs[0]) + CNamesOf(cs[1..])
  }

  /** The codes of C type names, concatenated in order (a name without a code contributes nothing). */
  function NameCodes(ns: seq<string>): string {
    if |ns| == 0 then ""
    else (if CodeOf(ns[0]).Some? then CodeOf(ns[0]).value else "") + NameCodes(ns[1..])
  }

  lemma NameCodesAppend(a: seq<string>, b: seq<string>)
    ensures NameCodes(a + b) == NameCodes(a) + NameCodes(b)
  {
    if |a| > 0 {
      assert (a + b)[1..] == a[1..] + b;
      NameCodesAppend(a[1..], b);
    } else {
      assert a + b == b;
    }
  }

  /**
   * `format_of`: a scalar code, or `"(" + element codes + ")"` for a list
   * (`"()"` for `"[]"`). With the parentheses taken out, a format is the
   * codes of the C type's names, in order.
   */
  function FormatOf(c: CType): (r: Result<string, SignatureError>)
    ensures c.CName? ==> (r.Success? <==> CodeOf(c.name).Some?)
    ensures c.CName? && r.Success? ==> r.value == CodeOf(c.name).value
    ensures c.CList? && r.Success? ==> |r.value| >= 2 && r.value[0] == '(' && r.value[|r.value| - 1] == ')'
    ensures c == CList([]) ==> r == Success("()")
    ensures r.Success? ==> RemoveAll(r.value, Parens) == NameCodes(CNames(c))
    decreases c, 1
  {
    match c
    case CName(n) =>
      if n == "void*" then
        RemoveAllNone("O", Parens);
        Success("O")
      else if |n| == 0 then Failure(EmptyTag)
      else if ScalarCode(n).None? then Failure(UnknownFormat(n))
      else
        RemoveAllNone(ScalarCode(n).value, Parens);
        Success(ScalarCode(n).value)
    case CList(cs) =>
      if |cs| == 0 then Success("()")
      else
        var codes :- FormatsOf(cs);
        RemoveAllAppend("(" + codes, ")", Parens);
        RemoveAllAppend("(", codes, Parens);
        Success("(" + codes + ")")
  }

  /** `"".join(map(format_of, tys))`. */
  function FormatsOf(cs: seq<CType>): (r: Result<string, SignatureError>)
    ensures r.Success? ==> RemoveAll(r.value, Parens) == NameCodes(CNamesOf(cs))
    decreases cs, 0
  {
    if |cs| == 0 then Success("")
    else
      var a :- FormatOf(cs[0]);
      var b :- FormatsOf(cs[1..]);
      RemoveAllAppend(a, b, Parens);
      NameCodesAppend(CNames(cs[0]), CNamesOf(cs[1..]));
      Success(a + b)
  }

  /** The format code of one signature entry, `format_of(_extracted_type(ty))`. */
  function EntryCode(t: TypeTag, cpp: TyToCpp): Result<string, SignatureError> {
    var c :- ExtractedType(t, cpp);
    FormatOf(c)
  }

  /** `"".join([format_of(_extracted_type(ty)) for ty in signature.values()])`. */
  function ArgsFormat(ts: seq<TypeTag>, cpp: TyToCpp): Result<string, SignatureError>
    decreases |ts|
  {
    if |ts| == 0 then Success("")
    else
      var a :- EntryCode(ts[0], cpp);
      var b :- ArgsFormat(ts[1..], cpp);
      Success(a + b)
  }

  /** The signature with its `constexpr` entries removed, in order. */
  function RuntimeTags(sig: seq<TypeTag>): (r: seq<TypeTag>)
    ensures |r| <= |sig|
    ensures forall i :: 0 <= i < |r| ==> r[i] != Leaf("constexpr") && r[i] in sig
    ensures forall t :: t in r <==> t in sig && t != Leaf("constexpr")
    decreases |sig|
  {
    if |sig| == 0 then []
    else
      assert sig == [sig[0]] + sig[1..];
      if sig[0] == Leaf("constexpr") then RuntimeTags(sig[1..])
      else [sig[0]] + RuntimeTags(sig[1..])
  }

  /** Dropping `constexpr` entries works piecewise: the kept entries keep their order. */
  lemma {:induction false} RuntimeTagsAppend(a: seq<TypeTag>, b: seq<TypeTag>)
    ensures RuntimeTags(a + b) == RuntimeTags(a) + RuntimeTags(b)
    decreases |a|
  {
    if |a| == 0 {
      assert a + b == b;
    } else {
      assert (a + b)[0] == a[0];
      assert (a + b)[1..] == a[1..] + b;
      RuntimeTagsAppend(a[1..], b);
    }
  }

  /** The codes of leaf tags, concatenated in order (a leaf without a code contributes nothing). */
  function LeafCodes(leaves: seq<string>, cpp: TyToCpp): string {
    if |leaves| == 0 then ""
    else (if LeafCode(leaves[0], cpp).Some? then LeafCode(leaves[0], cpp).value else "") + LeafCodes(leaves[1..], cpp)
  }

  /**
   * The format string handed to `PyArg_ParseTuple`: it exists exactly when
   * every leaf of every runtime entry has a code, and with the parentheses
   * taken out it is the nine fixed codes followed by the leaves' codes in
   * signature order.
   */
  function ParseFormat(sig: seq<TypeTag>, cpp: TyToCpp): (r: Result<string, SignatureError>)
    ensures r.Success? ==> |r.value| >= 9 && r.value[..9] == "iiiOOOOOO"
    ensures r.Success? <==> AllCoded(LeavesOf(RuntimeTags(sig)), cpp)
    ensures r.Success? ==>
              RemoveAll(r.value, Parens) == "iiiOOOOOO" + LeafCodes(LeavesOf(RuntimeTags(sig)), cpp)
  {
    ArgsFormatSupported(RuntimeTags(sig), cpp);
    SupportedLeaves(RuntimeTags(sig), cpp);
    var codes :- ArgsFormat(RuntimeTags(sig), cpp);
    ArgsFormatCodes(RuntimeTags(sig), cpp);
    RemoveAllAppend("iiiOOOOOO", codes, Parens);
    RemoveAllNone("iiiOOOOOO", Parens);
    Success("iiiOOOOOO" + codes)
  }

  /** The source text of a tag. */
  function TagText(t: TypeTag): string
    decreases t, 1
  {
    match t
    case Leaf(n) => n
    case ListTag(es) => "[" + Join(",", TagTexts(es)) + "]"
  }

  function TagTexts(ts: seq<TypeTag>): (r: seq<string>)
    ensures |r| == |ts|
    decreases ts, 0
  {
    if |ts| == 0 then [] else [TagText(ts[0])] + TagTexts(ts[1..])
  }

  const Brackets: set<char> := {'[', ']'}

  /**
   * The dense argument list: the tags joined with `","`, all brackets
   * removed, split on `","`, empty pieces dropped. Position `i` of the
   * result is the argument `arg{i}`.
   */
  function DenseArgs(ts: seq<TypeTag>): (r: seq<string>)
    ensures forall i :: 0 <= i < |r| ==> |r[i]| > 0
  {
    NonEmpty(Split(RemoveAll(Join(",", TagTexts(ts)), Brackets), ','))
  }

  /** The leaf tags of a tag tree, left to right. */
  function Leaves(t: TypeTag): seq<string>
    decreases t, 1
  {
    match t
    case Leaf(n) => [n]
    case ListTag(es) => LeavesOf(es)
  }

  function LeavesOf(ts: seq<TypeTag>): seq<string>
    decreases ts, 0
  {
    if |ts| == 0 then [] else Leaves(ts[0]) + LeavesOf(ts[1..])
  }

  /** A leaf name the textual encoding can carry: non-empty, with no comma or bracket. */
  predicate GoodLeaf(n: string) {
    |n| > 0 && ',' !in n && '[' !in n && ']' !in n
  }

  predicate WellFormed(t: TypeTag)
    decreases t, 1
  {
    match t
    case Leaf(n) => GoodLeaf(n)
    case ListTag(es) => AllWellFormed(es)
  }

  predicate AllWellFormed(ts: seq<TypeTag>)
    decreases ts, 0
  {
    |ts| == 0 || (WellFormed(ts[0]) && AllWellFormed(ts[1..]))
  }

  /** Whether dense argument `i` is bound as a kernel parameter (the dense index is tested against `constants`). */
  predicate IsParam(dense: seq<string>, constants: set<int>, i: int) {
    0 <= i < |dense| && i !in constants && dense[i] != "none"
  }

  /** `[i for i, ty in signature.items() if i not in constants and ty != "none"]`, from index `from` on. */
  function ParamsFrom(dense: seq<string>, constants: set<int>, from: nat): (r: seq<nat>)
    requires from <= |dense|
    ensures forall k :: 0 <= k < |r| ==> from <= r[k] && IsParam(dense, constants, r[k])
    ensures forall i :: from <= i < |dense| && IsParam(dense, constants, i) ==> i in r
    ensures forall k, l :: 0 <= k < l < |r| ==> r[k] < r[l]
    decreases |dense| - from
  {
    if from == |dense| then []
    else if IsParam(dense, constants, from) then [from] + ParamsFrom(dense, constants, from + 1)
    else ParamsFrom(dense, constants, from + 1)
  }

  /** `ty_to_cpp` of every dense argument: the C parameter types of `sycl_kernel_launch`. */
  function ArgDecls(dense: seq<string>, cpp: TyToCpp): (r: Result<seq<string>, SignatureError>)
    ensures r.Success? <==> forall i :: 0 <= i < |dense| ==> cpp(dense[i]).Some?
    ensures r.Success? ==> |r.value| == |dense| && forall i :: 0 <= i < |dense| ==> cpp(dense[i]) == Some(r.value[i])
    decreases |dense|
  {
    if |dense| == 0 then Success([])
    else if cpp(dense[0]).None? then Failure(UnknownCppType(dense[0]))
    else
      var rest :- ArgDecls(dense[1..], cpp);
      assert forall i :: 1 <= i < |dense| ==> dense[i] == dense[1..][i - 1];
      Success([cpp(dense[0]).value] + rest)
  }

  /** What `make_launcher` fixes about the generated module. */
  datatype LauncherPlan = LauncherPlan(
    format: string,          // the PyArg_ParseTuple format
    args: seq<string>,       // the dense argument tags, `arg0 .. argM-1`
    argDecls: seq<string>,   // their C types
    params: seq<nat>)        // the dense indices bound as kernel parameters, in order

  /** `make_launcher`. */
  function MakeLauncher(constants: set<int>, sig: seq<TypeTag>, cpp: TyToCpp): (r: Result<LauncherPlan, SignatureError>)
    ensures r.Success? ==> |r.value.format| >= 9 && r.value.format[..9] == "iiiOOOOOO"
    ensures r.Success? ==>
              RemoveAll(r.value.format, Parens) == "iiiOOOOOO" + LeafCodes(LeavesOf(RuntimeTags(sig)), cpp)
    ensures r.Success? ==> r.value.args == DenseArgs(RuntimeTags(sig))
    ensures r.Success? ==> |r.value.argDecls| == |r.value.args|
    ensures r.Success? ==> forall i :: 0 <= i < |r.value.args| ==> cpp(r.value.args[i]) == Some(r.value.argDecls[i])
    ensures r.Success? ==> forall i :: i in r.value.params <==> IsParam(r.value.args, constants, i)
    ensures r.Success? ==> forall k, l :: 0 <= k < l < |r.value.params| ==> r.value.params[k] < r.value.params[l]
  {
    var fmt :- ParseFormat(sig, cpp);
    var dense := DenseArgs(RuntimeTags(sig));
    var decls :- ArgDecls(dense, cpp);
    Success(LauncherPlan(fmt, dense, decls, ParamsFrom(dense, constants, 0)))
  }

  // ---------------------------------------------------------------------
  // Properties
  // ---------------------------------------------------------------------

  lemma RemoveBracketsAround(s: string)
    ensures RemoveAll("[" + s + "]", Brackets) == RemoveAll(s, Brackets)
  {
    RemoveAllAppend("[" + s, "]", Brackets);
    RemoveAllAppend("[", s, Brackets);
  }

  /** Flattening one well-formed tag yields exactly its leaves. */
  lemma {:induction false} TagPieces(t: TypeTag)
    requires WellFormed(t)
    ensures NonEmpty(Split(RemoveAll(TagText(t), Brackets), ',')) == Leaves(t)
    decreases t, 1
  {
    match t
    case Leaf(n) =>
      RemoveAllNone(n, Brackets);
      SplitNoSep(n, ',');
      assert NonEmpty([n]) == [n] by {
        assert NonEmpty([n][1..]) == [];
      }
    case ListTag(es) =>
      RemoveBracketsAround(Join(",", TagTexts(es)));
      RemoveAllJoin(",", TagTexts(es), Brackets);
      SplitJoinPieces(RemoveAllEach(TagTexts(es), Brackets), ',');
      TagsPieces(es);
  }

  lemma {:induction false} TagsPieces(ts: seq<TypeTag>)
    requires AllWellFormed(ts)
    ensures PiecesOf(RemoveAllEach(TagTexts(ts), Brackets), ',') == LeavesOf(ts)
    decreases ts, 0
  {
    if |ts| > 0 {
      var xs := RemoveAllEach(TagTexts(ts), Brackets);
      assert xs[0] == RemoveAll(TagText(ts[0]), Brackets);
      assert xs[1..] == RemoveAllEach(TagTexts(ts[1..]), Brackets) by {
        assert TagTexts(ts)[1..] == TagTexts(ts[1..]);
      }
      TagPieces(ts[0]);
      TagsPieces(ts[1..]);
    }
  }

  /**
   * For well-formed tags, the flatten-and-re-index step lists exactly the
   * leaves of the tags, in order: list tags contribute their elements and
   * `"[]"` contributes nothing.
   */
  lemma {:induction false} DenseArgsAreLeaves(ts: seq<TypeTag>)
    requires AllWellFormed(ts)
    ensures DenseArgs(ts) == LeavesOf(ts)
  {
    RemoveAllJoin(",", TagTexts(ts), Brackets);
    SplitJoinPieces(RemoveAllEach(TagTexts(ts), Brackets), ',');
    TagsPieces(ts);
  }

  /** Whether a leaf tag has a format code, and which. */
  function LeafCode(n: string, cpp: TyToCpp): (r: Option<string>)
    ensures r.Some? ==> |r.value| == 1
  {
    if |n| == 0 then None
    else if IsPointerLike(n) then Some("O")
    else if cpp(n).None? then None
    else CodeOf(cpp(n).value)
  }

  /** A tag whose every leaf has a code. */
  predicate Supported(t: TypeTag, cpp: TyToCpp)
    decreases t, 1
  {
    match t
    case Leaf(n) => LeafCode(n, cpp).Some?
    case ListTag(es) => AllSupported(es, cpp)
  }

  predicate AllSupported(ts: seq<TypeTag>, cpp: TyToCpp)
    decreases ts, 0
  {
    |ts| == 0 || (Supported(ts[0], cpp) && AllSupported(ts[1..], cpp))
  }

  /** The code of a tag succeeds exactly when every leaf of it is supported. */
  lemma {:induction false} EntryCodeSupported(t: TypeTag, cpp: TyToCpp)
    ensures EntryCode(t, cpp).Success? <==> Supported(t, cpp)
    ensures t.Leaf? && Supported(t, cpp) ==> EntryCode(t, cpp) == Success(LeafCode(t.name, cpp).value)
    decreases t, 1
  {
    match t
    case Leaf(n) =>
    case ListTag(es) =>
      ListCodesSupported(es, cpp);
  }

  lemma {:induction false} ListCodesSupported(ts: seq<TypeTag>, cpp: TyToCpp)
    ensures ExtractedTypes(ts, cpp).Success? && FormatsOf(ExtractedTypes(ts, cpp).value).Success?
            <==> AllSupported(ts, cpp)
    decreases ts, 0
  {
    if |ts| > 0 {
      EntryCodeSupported(ts[0], cpp);
      ListCodesSupported(ts[1..], cpp);
      var r := ExtractedTypes(ts, cpp);
      if r.Success? {
        assert r.value[1..] == ExtractedTypes(ts[1..], cpp).value;
        assert r.value[0] == ExtractedType(ts[0], cpp).value;
      }
    }
  }

  lemma {:induction false} ArgsFormatSupported(ts: seq<TypeTag>, cpp: TyToCpp)
    ensures ArgsFormat(ts, cpp).Success? <==> AllSupported(ts, cpp)
    decreases |ts|
  {
    if |ts| > 0 {
      EntryCodeSupported(ts[0], cpp);
      ArgsFormatSupported(ts[1..], cpp);
    }
  }

  predicate AllCoded(leaves: seq<string>, cpp: TyToCpp) {
    forall i :: 0 <= i < |leaves| ==> LeafCode(leaves[i], cpp).Some?
  }

  lemma AllCodedAppend(a: seq<string>, b: seq<string>, cpp: TyToCpp)
    ensures AllCoded(a + b, cpp) <==> AllCoded(a, cpp) && AllCoded(b, cpp)
  {
    if AllCoded(a, cpp) && AllCoded(b, cpp) {
      forall i | 0 <= i < |a + b| ensures LeafCode((a + b)[i], cpp).Some? {
        if i >= |a| { assert (a + b)[i] == b[i - |a|]; }
      }
    }
    if AllCoded(a + b, cpp) {
      forall i | 0 <= i < |b| ensures LeafCode(b[i], cpp).Some? {
        assert (a + b)[|a| + i] == b[i];
      }
      forall i | 0 <= i < |a| ensures LeafCode(a[i], cpp).Some? {
        assert (a + b)[i] == a[i];
      }
    }
  }

  lemma {:induction false} SupportedLeaves(ts: seq<TypeTag>, cpp: TyToCpp)
    ensures AllSupported(ts, cpp) <==> AllCoded(LeavesOf(ts), cpp)
    decreases ts, 0
  {
    if |ts| > 0 {
      SupportedLeaves(ts[1..], cpp);
      AllCodedAppend(Leaves(ts[0]), LeavesOf(ts[1..]), cpp);
      match ts[0]
      case Leaf(n) =>
        assert [n][0] == n;
      case ListTag(es) =>
        SupportedLeaves(es, cpp);
    }
  }

  /** Every leaf has a `ty_to_cpp` entry (pointer tags included: `arg_decls` declares them all). */
  predicate AllTyped(leaves: seq<string>, cpp: TyToCpp) {
    forall i :: 0 <= i < |leaves| ==> cpp(leaves[i]).Some?
  }

  /**
   * For a well-formed signature, `make_launcher` succeeds exactly when every
   * leaf of every runtime entry has a C type and a format code: an
   * unsupported type always fails when the launcher is generated and never
   * defaults to some other code.
   */
  lemma {:induction false} MakeLauncherSucceeds(constants: set<int>, sig: seq<TypeTag>, cpp: TyToCpp)
    requires AllWellFormed(RuntimeTags(sig))
    ensures MakeLauncher(constants, sig, cpp).Success? <==>
            AllTyped(LeavesOf(RuntimeTags(sig)), cpp) && AllCoded(LeavesOf(RuntimeTags(sig)), cpp)
  {
    var ts := RuntimeTags(sig);
    ArgsFormatSupported(ts, cpp);
    SupportedLeaves(ts, cpp);
    DenseArgsAreLeaves(ts);
  }

  predicate AllLeaves(ts: seq<TypeTag>) {
    forall i :: 0 <= i < |ts| ==> ts[i].Leaf?
  }

  /** For a signature without list tags, the codes are one character per runtime entry, in order. */
  lemma {:induction false} FlatArgsFormat(ts: seq<TypeTag>, cpp: TyToCpp)
    requires AllLeaves(ts)
    requires ArgsFormat(ts, cpp).Success?
    ensures |ArgsFormat(ts, cpp).value| == |ts|
    ensures forall i :: 0 <= i < |ts| ==> LeafCode(ts[i].name, cpp) == Some([ArgsFormat(ts, cpp).value[i]])
    decreases |ts|
  {
    if |ts| > 0 {
      EntryCodeSupported(ts[0], cpp);
      FlatArgsFormat(ts[1..], cpp);
      var f := ArgsFormat(ts, cpp).value;
      var g := ArgsFormat(ts[1..], cpp).value;
      assert f == LeafCode(ts[0].name, cpp).value + g;
      forall i | 1 <= i < |ts| ensures LeafCode(ts[i].name, cpp) == Some([f[i]]) {
        assert ts[i] == ts[1..][i - 1];
        assert f[i] == g[i - 1];
      }
    }
  }

  /**
   * The parse format of a signature without list tags is `"iiiOOOOOO"`
   * followed by exactly one code per non-`constexpr` entry, in signature order.
   */
  lemma {:induction false} FlatParseFormat(sig: seq<TypeTag>, cpp: TyToCpp)
    requires AllLeaves(sig)
    requires ParseFormat(sig, cpp).Success?
    ensures |ParseFormat(sig, cpp).value| == 9 + |RuntimeTags(sig)|
    ensures forall i :: 0 <= i < |RuntimeTags(sig)| ==>
              LeafCode(RuntimeTags(sig)[i].name, cpp) == Some([ParseFormat(sig, cpp).value[9 + i]])
  {
    var ts := RuntimeTags(sig);
    assert AllLeaves(ts);
    FlatArgsFormat(ts, cpp);
  }

  lemma LeafCodesAppend(a: seq<string>, b: seq<string>, cpp: TyToCpp)
    ensures LeafCodes(a + b, cpp) == LeafCodes(a, cpp) + LeafCodes(b, cpp)
  {
    if |a| > 0 {
      assert (a + b)[1..] == a[1..] + b;
      LeafCodesAppend(a[1..], b, cpp);
    } else {
      assert a + b == b;
    }
  }

  /** When every leaf has a code, the concatenation holds exactly one code per leaf, in order. */
  lemma {:induction false} LeafCodesAt(leaves: seq<string>, cpp: TyToCpp)
    requires AllCoded(leaves, cpp)
    ensures |LeafCodes(leaves, cpp)| == |leaves|
    ensures forall i :: 0 <= i < |leaves| ==> LeafCode(leaves[i], cpp) == Some([LeafCodes(leaves, cpp)[i]])
    decreases |leaves|
  {
    if |leaves| > 0 {
      assert AllCoded(leaves[1..], cpp) by {
        forall i | 0 <= i < |leaves[1..]| ensures LeafCode(leaves[1..][i], cpp).Some? {
          assert leaves[1..][i] == leaves[i + 1];
        }
      }
      LeafCodesAt(leaves[1..], cpp);
      var f := LeafCodes(leaves, cpp);
      var g := LeafCodes(leaves[1..], cpp);
      assert f == LeafCode(leaves[0], cpp).value + g;
      forall i | 1 <= i < |leaves| ensures LeafCode(leaves[i], cpp) == Some([f[i]]) {
        assert leaves[i] == leaves[1..][i - 1];
        assert f[i] == g[i - 1];
      }
    }
  }

  /** The C type of a tag names, code for code, what its leaves are coded as. */
  lemma {:induction false} ExtractedCodes(t: TypeTag, cpp: TyToCpp)
    requires ExtractedType(t, cpp).Success?
    ensures NameCodes(CNames(ExtractedType(t, cpp).value)) == LeafCodes(Leaves(t), cpp)
    decreases t, 1
  {
    match t
    case Leaf(n) =>
      var x := ExtractedType(t, cpp).value.name;
      assert NameCodes([x]) == (if CodeOf(x).Some? then CodeOf(x).value else "");
      assert LeafCodes([n], cpp) == (if LeafCode(n, cpp).Some? then LeafCode(n, cpp).value else "");
    case ListTag(es) =>
      ExtractedCodesOf(es, cpp);
  }

  lemma {:induction false} ExtractedCodesOf(ts: seq<TypeTag>, cpp: TyToCpp)
    requires ExtractedTypes(ts, cpp).Success?
    ensures NameCodes(CNamesOf(ExtractedTypes(ts, cpp).value)) == LeafCodes(LeavesOf(ts), cpp)
    decreases ts, 0
  {
    if |ts| > 0 {
      var cs := ExtractedTypes(ts, cpp).value;
      assert cs[0] == ExtractedType(ts[0], cpp).value;
      assert cs[1..] == ExtractedTypes(ts[1..], cpp).value;
      ExtractedCodes(ts[0], cpp);
      ExtractedCodesOf(ts[1..], cpp);
      NameCodesAppend(CNames(cs[0]), CNamesOf(cs[1..]));
      LeafCodesAppend(Leaves(ts[0]), LeavesOf(ts[1..]), cpp);
    }
  }

  /** With the parentheses taken out, the codes of the entries are their leaves' codes, in order. */
  lemma {:induction false} ArgsFormatCodes(ts: seq<TypeTag>, cpp: TyToCpp)
    requires ArgsFormat(ts, cpp).Success?
    ensures RemoveAll(ArgsFormat(ts, cpp).value, Parens) == LeafCodes(LeavesOf(ts), cpp)
    decreases |ts|
  {
    if |ts| > 0 {
      var a := EntryCode(ts[0], cpp).value;
      var b := ArgsFormat(ts[1..], cpp).value;
      assert ArgsFormat(ts, cpp).value == a + b;
      ExtractedCodes(ts[0], cpp);
      ArgsFormatCodes(ts[1..], cpp);
      RemoveAllAppend(a, b, Parens);
      LeafCodesAppend(Leaves(ts[0]), LeavesOf(ts[1..]), cpp);
    }
  }

  /**
   * For every well-formed signature, list tags included, the parse format
   * with its parentheses taken out is `"iiiOOOOOO"` followed by exactly one
   * code per dense argument `arg{i}`, in order: the format and the argument
   * list of the generated module agree.
   */
  lemma MakeLauncherFormat(constants: set<int>, sig: seq<TypeTag>, cpp: TyToCpp)
    requires AllWellFormed(RuntimeTags(sig))
    requires MakeLauncher(constants, sig, cpp).Success?
    ensures var plan := MakeLauncher(constants, sig, cpp).value;
            var f := RemoveAll(plan.format, Parens);
            |f| == 9 + |plan.args| && f[..9] == "iiiOOOOOO" &&
            forall i :: 0 <= i < |plan.args| ==> LeafCode(plan.args[i], cpp) == Some([f[9 + i]])
  {
    var leaves := LeavesOf(RuntimeTags(sig));
    DenseArgsAreLeaves(RuntimeTags(sig));
    LeafCodesAt(leaves, cpp);
  }
}
