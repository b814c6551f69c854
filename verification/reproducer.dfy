/**
 * The stand-alone Triton reproducer (`tritonReproducer`): it reads a
 * comma-separated argument file into tokens, walks the tokens record by
 * record binding kernel arguments to consecutive slots, computes the launch
 * ranges, and counts how many output elements agree with a reference.
 *
 * File contents are a parameter (a map from file name to byte size); the
 * device buffers are recorded by what they were set up from.
 */
module Reproducer {

  import opened Wrappers
  import opened Text
  import opened Sycl

  // ---------------------------------------------------------------------
  // readArguments
  // ---------------------------------------------------------------------

  /** What the tokenizer keeps of one comma-separated piece: its trimmed text, unless it is blank. */
  function Trimmed(piece: string): seq<string> {
    match TrimBlanks(piece)
    case None => []
    case Some(w) => [w]
  }

  /** A token the tokenizer produces: non-empty, with no blank at either end, and no comma or newline. */
  predicate IsToken(t: string) {
    |t| > 0 && t[0] !in CxxBlanks && t[|t| - 1] !in CxxBlanks && ',' !in t && '\n' !in t
  }

  /** The kept pieces of a sequence of pieces, in order. */
  function Kept(pieces: seq<string>): (r: seq<string>)
    ensures |r| <= |pieces|
    decreases |pieces|
  {
    if |pieces| == 0 then []
    else Kept(pieces[..|pieces| - 1]) + Trimmed(pieces[|pieces| - 1])
  }

  /** The tokens of the given lines: each line split on `','`, every piece trimmed, blank pieces dropped. */
  function LineTokens(lines: seq<string>): seq<string>
    decreases |lines|
  {
    if |lines| == 0 then []
    else LineTokens(lines[..|lines| - 1]) + LineWords(lines[|lines| - 1])
  }

  /** The tokens of one line. */
  function LineWords(line: string): (r: seq<string>)
    ensures '\n' !in line ==> forall t :: t in r ==> IsToken(t)
  {
    JoinSplit(line, ',');
    var ps := Split(line, ',');
    if '\n' !in line then
      forall i | 0 <= i < |ps|
        ensures ',' !in ps[i] && '\n' !in ps[i]
      {
        SplitPieceWithin(line, ',', i);
      }
      KeptTokens(ps);
      Kept(ps)
    else Kept(ps)
  }

  /** `argInfo` as read from the argument file. */
  function FileTokens(content: string): seq<string> {
    LineTokens(Split(content, '\n'))
  }

  lemma {:induction false} KeptTokens(pieces: seq<string>)
    requires forall i :: 0 <= i < |pieces| ==> ',' !in pieces[i] && '\n' !in pieces[i]
    ensures forall t :: t in Kept(pieces) ==> IsToken(t)
    decreases |pieces|
  {
    if |pieces| > 0 {
      var init, p := pieces[..|pieces| - 1], pieces[|pieces| - 1];
      KeptTokens(init);
      TrimmedToken(p);
      assert Kept(pieces) == Kept(init) + Trimmed(p);
    }
  }

  /** A piece with no comma or newline trims to a proper token, if to anything. */
  lemma TrimmedToken(p: string)
    requires ',' !in p && '\n' !in p
    ensures forall t :: t in Trimmed(p) ==> IsToken(t)
  {
    match TrimBlanks(p)
    case None =>
    case Some(w) =>
      var a, b :| 0 <= a <= b <= |p| && w == p[a..b];
      SliceAvoids(p, a, b, ',');
      SliceAvoids(p, a, b, '\n');
  }

  /** A character missing from a string is missing from every slice of it. */
  lemma SliceAvoids(s: string, a: nat, b: nat, c: char)
    requires a <= b <= |s| && c !in s
    ensures c !in s[a..b]
  {
  }

  /** Every token of a well-split file is a proper token. */
  lemma {:induction false} FileTokensAreTokens(lines: seq<string>)
    requires forall i :: 0 <= i < |lines| ==> '\n' !in lines[i]
    ensures forall t :: t in LineTokens(lines) ==> IsToken(t)
    decreases |lines|
  {
    if |lines| > 0 {
      var line := lines[|lines| - 1];
      FileTokensAreTokens(lines[..|lines| - 1]);
    }
  }

  /** Every character of a piece of a split comes from the input. */
  lemma {:induction false} SplitPieceWithin(s: string, sep: char, i: nat)
    requires i < |Split(s, sep)|
    ensures forall c :: c in Split(s, sep)[i] ==> c in s
    decreases |s|
  {
    if |s| > 0 {
      var rest := Split(s[1..], sep);
      if s[0] == sep {
        if i > 0 {
          SplitPieceWithin(s[1..], sep, i - 1);
        }
      } else {
        if i == 0 {
          SplitPieceWithin(s[1..], sep, 0);
        } else {
          SplitPieceWithin(s[1..], sep, i);
        }
      }
    }
  }

  /** The argument file of a set of records: the tokens of each record joined by commas, one record per line. */
  function RecordLines(records: seq<seq<string>>): (r: seq<string>)
    ensures |r| == |records|
    ensures forall i :: 0 <= i < |records| ==> r[i] == Join([','], records[i])
    decreases |records|
  {
    if |records| == 0 then [] else RecordLines(records[..|records| - 1]) + [Join([','], records[|records| - 1])]
  }

  /** All tokens of the records, in order. */
  function Flatten(records: seq<seq<string>>): seq<string>
    decreases |records|
  {
    if |records| == 0 then [] else Flatten(records[..|records| - 1]) + records[|records| - 1]
  }

  lemma {:induction false} SplitJoin(ws: seq<string>, sep: char)
    requires |ws| > 0
    requires forall i :: 0 <= i < |ws| ==> sep !in ws[i]
    ensures Split(Join([sep], ws), sep) == ws
    decreases |ws|
  {
    if |ws| == 1 {
      SplitNoSep(ws[0], sep);
    } else {
      assert Join([sep], ws) == ws[0] + [sep] + Join([sep], ws[1..]);
      SplitAppend(ws[0], Join([sep], ws[1..]), sep);
      SplitNoSep(ws[0], sep);
      SplitJoin(ws[1..], sep);
    }
  }

  lemma {:induction false} KeptClean(ws: seq<string>)
    requires forall i :: 0 <= i < |ws| ==> TrimBlanks(ws[i]) == Some(ws[i])
    ensures Kept(ws) == ws
    decreases |ws|
  {
    if |ws| > 0 {
      var init, w := ws[..|ws| - 1], ws[|ws| - 1];
      KeptClean(init);
      assert Trimmed(w) == [w];
      assert init + [w] == ws;
    }
  }

  lemma JoinNoSep(ws: seq<string>, c: char)
    requires forall i :: 0 <= i < |ws| ==> c !in ws[i] && c != ','
    ensures c !in Join([','], ws)
    decreases |ws|
  {
    if |ws| > 1 {
      JoinNoSep(ws[1..], c);
    }
  }

  /** Reading back an argument file written one record per line gives exactly the records' tokens. */
  lemma {:induction false} ReadWrittenRecords(records: seq<seq<string>>)
    requires |records| > 0
    requires forall r, i :: 0 <= r < |records| && 0 <= i < |records[r]| ==>
               IsToken(records[r][i]) && TrimBlanks(records[r][i]) == Some(records[r][i])
    ensures FileTokens(Join(['\n'], RecordLines(records))) == Flatten(records)
  {
    var lines := RecordLines(records);
    forall r | 0 <= r < |records|
      ensures '\n' !in lines[r]
    {
      JoinNoSep(records[r], '\n');
    }
    SplitJoin(lines, '\n');
    LinesOfRecords(records);
  }

  lemma {:induction false} LinesOfRecords(records: seq<seq<string>>)
    requires forall r, i :: 0 <= r < |records| && 0 <= i < |records[r]| ==>
               IsToken(records[r][i]) && TrimBlanks(records[r][i]) == Some(records[r][i])
    ensures LineTokens(RecordLines(records)) == Flatten(records)
    decreases |records|
  {
    if |records| > 0 {
      var n := |records| - 1;
      var rec := records[n];
      LinesOfRecords(records[..n]);
      assert RecordLines(records)[..n] == RecordLines(records[..n]);
      if |rec| == 0 {
        assert Split(Join([','], rec), ',') == [[]];
        assert Kept([[]]) == Kept([]) + Trimmed([]);
      } else {
        SplitJoin(rec, ',');
        KeptClean(rec);
      }
    }
  }

  // ---------------------------------------------------------------------
  // std::stoi
  // ---------------------------------------------------------------------

  predicate IsDigit(c: char) { '0' <= c <= '9' }

  /** The characters `isspace` accepts, which `strtol` skips. */
  const CSpaces: set<char> := {' ', '\t', '\n', '\U{000B}', '\U{000C}', '\r'}

  function LeadingSpaces(s: string): (n: nat)
    ensures n <= |s|
    decreases |s|
  {
    if |s| > 0 && s[0] in CSpaces then 1 + LeadingSpaces(s[1..]) else 0
  }

  function LeadingDigits(s: string): (n: nat)
    ensures n <= |s|
    ensures forall i :: 0 <= i < n ==> IsDigit(s[i])
    decreases |s|
  {
    if |s| > 0 && IsDigit(s[0]) then 1 + LeadingDigits(s[1..]) else 0
  }

  function DigitOf(c: char): nat
    requires IsDigit(c)
  {
    c as int - '0' as int
  }

  /** The value of a string of decimal digits. */
  function DigitsValue(s: string): nat
    requires forall i :: 0 <= i < |s| ==> IsDigit(s[i])
    decreases |s|
  {
    if |s| == 0 then 0 else DigitsValue(s[..|s| - 1]) * 10 + DigitOf(s[|s| - 1])
  }

  /**
   * `std::stoi`: optional leading white space, an optional sign, then the
   * longest run of decimal digits; no digits, or a value outside `int`,
   * throws (here `None`).
   */
  function Stoi(s: string): (r: Option<int>)
    ensures r.Some? ==> IsI32(r.value)
  {
    var t := s[LeadingSpaces(s)..];
    var neg := |t| > 0 && t[0] == '-';
    var u := if |t| > 0 && (t[0] == '-' || t[0] == '+') then t[1..] else t;
    var n := LeadingDigits(u);
    if n == 0 then None
    else
      var m := DigitsValue(u[..n]);
      var v: int := if neg then -(m as int) else m as int;
      if IsI32(v) then Some(v) else None
  }

  function DigitChar(d: nat): (c: char)
    requires d < 10
    ensures IsDigit(c)
  {
    ('0' as int + d) as char
  }

  /** The decimal digits of `n`, most significant first. */
  function Decimal(n: nat): (s: string)
    ensures |s| > 0 && forall i :: 0 <= i < |s| ==> IsDigit(s[i])
    decreases n
  {
    if n < 10 then [DigitChar(n)] else Decimal(n / 10) + [DigitChar(n % 10)]
  }

  /** How the writer of an argument file prints an integer. */
  function Show(v: int): string {
    if v < 0 then "-" + Decimal(-v) else Decimal(v)
  }

  lemma {:induction false} DecimalValue(n: nat)
    ensures DigitsValue(Decimal(n)) == n
    decreases n
  {
    if n >= 10 {
      DecimalValue(n / 10);
      var s := Decimal(n);
      assert s[..|s| - 1] == Decimal(n / 10);
    }
  }

  lemma {:induction false} AllDigits(s: string)
    requires forall i :: 0 <= i < |s| ==> IsDigit(s[i])
    ensures LeadingDigits(s) == |s|
    decreases |s|
  {
    if |s| > 0 {
      AllDigits(s[1..]);
    }
  }

  /** `stoi` reads back every `int` its writer prints. */
  lemma StoiShow(v: int)
    requires IsI32(v)
    ensures Stoi(Show(v)) == Some(v)
  {
    var d := if v < 0 then -v else v;
    var s := Show(v);
    assert LeadingSpaces(s) == 0;
    assert s[0..] == s;
    var u := if v < 0 then s[1..] else s;
    assert u == Decimal(d);
    AllDigits(u);
    DecimalValue(d);
    assert u[..|u|] == u;
    assert DigitsValue(u[..LeadingDigits(u)]) == d;
  }

  // ---------------------------------------------------------------------
  // The record walk of `main`
  // ---------------------------------------------------------------------

  /** The element types `setupBuffers` is instantiated with. */
  datatype ElemType = Float | Half | Int | Int64 | UInt32 | UInt64

  /** `enum DataType`. */
  datatype DataType = INTEGER | FLOAT | HALF | STRING | DOUBLE | LONG

  function ElemSize(e: ElemType): (n: nat)
    ensures n in {2, 4, 8}
  {
    match e
    case Float => 4
    case Half => 2
    case Int => 4
    case Int64 => 8
    case UInt32 => 4
    case UInt64 => 8
  }

  /** The element type an `Array` record names; `"long"` is read as `int` elements. */
  function ArrayElem(name: string): Option<ElemType> {
    if name == "float" then Some(Float)
    else if name == "half" then Some(Half)
    else if name == "int" then Some(Int)
    else if name == "long" then Some(Int)
    else if name == "int64" then Some(Int64)
    else if name == "uint32" then Some(UInt32)
    else if name == "uint64" then Some(UInt64)
    else None
  }

  /**
   * The output type `setupBuffers` records, chosen by the element type's
   * printed name: `float`, the SYCL half type, and `long` (the name of
   * `int64_t`) match; `int`, `unsigned int` and `unsigned long` match none.
   */
  function OutputType(e: ElemType): Option<DataType> {
    match e
    case Float => Some(FLOAT)
    case Half => Some(HALF)
    case Int64 => Some(LONG)
    case _ => None
  }

  /** A device buffer: element type, element count, the file it was read from, and whether it was copied in. */
  datatype DeviceBuffer = DeviceBuffer(elem: ElemType, elements: nat, file: string, copied: bool)

  /** The reproducer's state besides `argInfo`; a device pointer is the index of its buffer. */
  datatype ReproState = ReproState(buffers: seq<DeviceBuffer>, devOutput: Option<nat>,
                                   hostOutputSize: Option<nat>, outType: Option<DataType>)

  /** A kernel argument bound by the walk. */
  datatype Bound = BufferArg(buffer: nat) | FloatArg(text: string) | IntArg(value: int) | LocalAccessor(bytes: nat)

  /** The launch parameters a `GDIM` record sets. */
  datatype GridArgs = GridArgs(gridX: u32, gridY: u32, gridZ: u32, numWarps: int, threadsPerWarp: int)

  datatype ReproError = OutOfRange | FileMissing(name: string) | InvalidNumber(token: string) | GridOverflow

  /** `argInfo[i]`; reading past the end is a failure. */
  function Token(ts: seq<string>, i: nat): (r: Result<string, ReproError>)
    ensures r.Success? <==> i < |ts|
    ensures r.Success? ==> r.value == ts[i]
  {
    if i < |ts| then Success(ts[i]) else Failure(OutOfRange)
  }

  function Number(ts: seq<string>, i: nat): (r: Result<int, ReproError>)
    ensures r.Success? <==> i < |ts| && Stoi(ts[i]).Some?
    ensures r.Success? ==> r.value == Stoi(ts[i]).value
  {
    var t :- Token(ts, i);
    match Stoi(t)
    case None => Failure(InvalidNumber(t))
    case Some(v) => Success(v)
  }

  /**
   * `setupBuffers<T>(vidx)`: read the file named by token `vidx + 2`,
   * allocate a buffer of as many elements as fit, and either mark it as the
   * output (token `vidx + 3` nonzero) or copy the data in.
   */
  function SetupSpec(ts: seq<string>, vidx: nat, e: ElemType, files: map<string, nat>, rs: ReproState)
    : (r: Result<(nat, ReproState), ReproError>)
    ensures r.Success? ==> vidx + 3 < |ts| && ts[vidx + 2] in files && Stoi(ts[vidx + 3]).Some?
    ensures r.Success? ==> r.value.0 == |rs.buffers|
    ensures r.Success? ==> (r.value.1.buffers == rs.buffers +
              [DeviceBuffer(e, files[ts[vidx + 2]] / ElemSize(e), ts[vidx + 2], Stoi(ts[vidx + 3]).value == 0)])
    ensures r.Success? && Stoi(ts[vidx + 3]).value != 0 ==>
              r.value.1.devOutput == Some(|rs.buffers|) &&
              r.value.1.hostOutputSize == Some(files[ts[vidx + 2]] / ElemSize(e))
    ensures r.Success? && Stoi(ts[vidx + 3]).value == 0 ==>
              r.value.1 == rs.(buffers := r.value.1.buffers)
  {
    var file :- Token(ts, vidx + 2);
    if file !in files then Failure(FileMissing(file))
    else
      var n := files[file] / ElemSize(e);
      var id := |rs.buffers|;
      var arrType :- Number(ts, vidx + 3);
      if arrType != 0 then
        Success((id, rs.(buffers := rs.buffers + [DeviceBuffer(e, n, file, false)], devOutput := Some(id),
                         hostOutputSize := Some(n),
                         outType := if OutputType(e).Some? then OutputType(e) else rs.outType)))
      else Success((id, rs.(buffers := rs.buffers + [DeviceBuffer(e, n, file, true)])))
  }

  /** The walk's state: the token index, the bound arguments (slot `k` is `args[k]`), the grid and the rest. */
  datatype WalkState = WalkState(vidx: nat, args: seq<Bound>, grid: GridArgs, repro: ReproState)

  /** An `Array` record at `vidx`. */
  function ArrayRecord(ts: seq<string>, files: map<string, nat>, st: WalkState): (r: Result<WalkState, ReproError>)
    ensures r.Success? ==> r.value.vidx == st.vidx && r.value.grid == st.grid
    ensures r.Success? ==> st.vidx + 1 < |ts|
    ensures r.Success? && ArrayElem(ts[st.vidx + 1]).None? ==> r.value == st
    ensures r.Success? && ArrayElem(ts[st.vidx + 1]).Some? ==>
              r.value.args == st.args + [BufferArg(|st.repro.buffers|)] &&
              |r.value.repro.buffers| == |st.repro.buffers| + 1 &&
              r.value.repro.buffers[|st.repro.buffers|].elem == ArrayElem(ts[st.vidx + 1]).value
  {
    var ty :- Token(ts, st.vidx + 1);
    match ArrayElem(ty)
    case None => Success(st)
    case Some(e) =>
      var (id, rs) :- SetupSpec(ts, st.vidx, e, files, st.repro);
      Success(st.(args := st.args + [BufferArg(id)], repro := FloatOutput(ts, st.vidx, e, id, rs)))
  }

  /** A `float` output array makes buffer `id` the output, read back as 32768 floats. */
  function FloatOutput(ts: seq<string>, vidx: nat, e: ElemType, id: nat, rs: ReproState): ReproState
    requires vidx + 3 < |ts| && Stoi(ts[vidx + 3]).Some?
  {
    if e == Float && Stoi(ts[vidx + 3]).value != 0
    then rs.(devOutput := Some(id), hostOutputSize := Some(32768), outType := Some(FLOAT))
    else rs
  }

  /** A `Var` record at `vidx`: a `float` or `int` scalar from token `vidx + 2`. */
  function VarRecord(ts: seq<string>, st: WalkState): (r: Result<WalkState, ReproError>)
    ensures r.Success? ==> r.value.vidx == st.vidx && r.value.grid == st.grid && r.value.repro == st.repro
    ensures r.Success? ==> st.vidx + 1 < |ts|
    ensures r.Success? && ts[st.vidx + 1] == "float" ==>
              st.vidx + 2 < |ts| && r.value.args == st.args + [FloatArg(ts[st.vidx + 2])]
    ensures r.Success? && ts[st.vidx + 1] == "int" ==>
              Number(ts, st.vidx + 2).Success? && r.value.args == st.args + [IntArg(Number(ts, st.vidx + 2).value)]
    ensures r.Success? && ts[st.vidx + 1] !in {"float", "int"} ==> r.value.args == st.args
  {
    var ty :- Token(ts, st.vidx + 1);
    if ty == "float" then
      var text :- Token(ts, st.vidx + 2);
      Success(st.(args := st.args + [FloatArg(text)]))
    else if ty == "int" then
      var v :- Number(ts, st.vidx + 2);
      Success(st.(args := st.args + [IntArg(v)]))
    else Success(st)
  }

  /** An `SM` record at `vidx`: a local accessor of as many bytes as token `vidx + 2` says. */
  function SharedMemoryRecord(ts: seq<string>, st: WalkState): (r: Result<WalkState, ReproError>)
    ensures r.Success? <==> Number(ts, st.vidx + 2).Success?
    ensures r.Success? ==> r.value == st.(args := st.args + [LocalAccessor(ToSizeT(Number(ts, st.vidx + 2).value))])
  {
    var bytes :- Number(ts, st.vidx + 2);
    Success(st.(args := st.args + [LocalAccessor(ToSizeT(bytes))]))
  }

  /** The grid a `GDIM` record at `vidx` sets, from tokens `vidx + 1 .. vidx + 5`. */
  function GridOf(ts: seq<string>, vidx: nat): (r: Result<GridArgs, ReproError>)
    ensures r.Success? <==> Number(ts, vidx + 1).Success? && Number(ts, vidx + 2).Success? &&
                            Number(ts, vidx + 3).Success? && Number(ts, vidx + 4).Success? &&
                            Number(ts, vidx + 5).Success?
    ensures r.Success? ==> r.value == GridArgs(
              ToU32(Number(ts, vidx + 1).value), ToU32(Number(ts, vidx + 2).value),
              ToU32(Number(ts, vidx + 3).value), Number(ts, vidx + 4).value, Number(ts, vidx + 5).value)
  {
    var x :- Number(ts, vidx + 1);
    var y :- Number(ts, vidx + 2);
    var z :- Number(ts, vidx + 3);
    var w :- Number(ts, vidx + 4);
    var t :- Number(ts, vidx + 5);
    Success(GridArgs(ToU32(x), ToU32(y), ToU32(z), w, t))
  }

  /** A `GDIM` record at `vidx`. */
  function GridRecord(ts: seq<string>, st: WalkState): (r: Result<WalkState, ReproError>)
    ensures r.Success? <==> GridOf(ts, st.vidx).Success?
    ensures r.Success? ==> r.value == st.(grid := GridOf(ts, st.vidx).value)
  {
    var g :- GridOf(ts, st.vidx);
    Success(st.(grid := g))
  }

  /** Whether the record at `vidx` binds an argument. */
  predicate Binds(ts: seq<string>, vidx: nat)
    requires vidx < |ts|
  {
    || (ts[vidx] == "Array" && vidx + 1 < |ts| && ArrayElem(ts[vidx + 1]).Some?)
    || (ts[vidx] == "Var" && vidx + 1 < |ts| && ts[vidx + 1] in {"float", "int"})
    || ts[vidx] == "SM"
  }

  /** The record at `vidx`, by its kind; the four kinds are tested one after the other and at most one matches. */
  function RecordOf(ts: seq<string>, files: map<string, nat>, st: WalkState): (r: Result<WalkState, ReproError>)
    requires st.vidx < |ts|
    ensures r.Success? ==> r.value.vidx == st.vidx
    ensures r.Success? ==> |r.value.args| == |st.args| + (if Binds(ts, st.vidx) then 1 else 0)
    ensures r.Success? ==> r.value.args[..|st.args|] == st.args
    ensures r.Success? && ts[st.vidx] != "GDIM" ==> r.value.grid == st.grid
  {
    var head := ts[st.vidx];
    if head == "Array" then ArrayRecord(ts, files, st)
    else if head == "Var" then VarRecord(ts, st)
    else if head == "SM" then SharedMemoryRecord(ts, st)
    else if head == "GDIM" then GridRecord(ts, st)
    else Success(st)
  }

  /** One pass of the walk: the record at `vidx`, then `vidx` advances by 4, or 6 for `GDIM`. */
  function Step(ts: seq<string>, files: map<string, nat>, st: WalkState): (r: Result<WalkState, ReproError>)
    requires st.vidx < |ts|
    ensures r.Success? ==> r.value.vidx == st.vidx + (if ts[st.vidx] == "GDIM" then 6 else 4)
    ensures r.Success? ==> |r.value.args| == |st.args| + (if Binds(ts, st.vidx) then 1 else 0)
    ensures r.Success? ==> r.value.args[..|st.args|] == st.args
    ensures r.Success? && ts[st.vidx] != "GDIM" ==> r.value.grid == st.grid
  {
    var st' :- RecordOf(ts, files, st);
    Success(st'.(vidx := st.vidx + if ts[st.vidx] == "GDIM" then 6 else 4))
  }

  /** The walk from `st` to the end of the tokens. */
  function Walk(ts: seq<string>, files: map<string, nat>, st: WalkState): (r: Result<WalkState, ReproError>)
    ensures r.Success? ==> r.value.vidx >= |ts|
    ensures r.Success? ==> |st.args| <= |r.value.args| && r.value.args[..|st.args|] == st.args
    decreases |ts| - st.vidx
  {
    if st.vidx >= |ts| then Success(st)
    else
      var next :- Step(ts, files, st);
      Walk(ts, files, next)
  }

  /** The grid of a submission: `gridConfig`, whose `num_warps * threads_per_warp` must not overflow `int`. */
  function LaunchRange(g: GridArgs): (r: Result<NdRange, ReproError>)
    ensures r.Success? <==> IsI32(g.numWarps) && IsI32(g.threadsPerWarp) && IsI32(g.numWarps * g.threadsPerWarp)
    ensures r.Success? ==> r.value == GridConfig(g.gridX, g.gridY, g.gridZ, g.numWarps, g.threadsPerWarp)
  {
    if IsI32(g.numWarps) && IsI32(g.threadsPerWarp) && IsI32(g.numWarps * g.threadsPerWarp)
    then Success(GridConfig(g.gridX, g.gridY, g.gridZ, g.numWarps, g.threadsPerWarp))
    else Failure(GridOverflow)
  }

  const InitialGrid: GridArgs := GridArgs(0, 0, 0, 0, 0)

  /** The arguments bound and the range launched by the command group of `main`. */
  datatype Launch = Launch(range: NdRange, args: map<nat, Bound>)

  /** The reproducer object. */
  class TritonReproducer {
    var argInfo: seq<string>
    var buffers: seq<DeviceBuffer>
    var devOutput: Option<nat>
    var hostOutputSize: Option<nat>
    var outType: Option<DataType>

    constructor ()
      ensures argInfo == [] && State() == ReproState([], None, None, None)
    {
      argInfo := [];
      buffers := [];
      devOutput := None;
      hostOutputSize := None;
      outType := None;
    }

    function State(): ReproState
      reads this
    {
      ReproState(buffers, devOutput, hostOutputSize, outType)
    }

    /** `readArguments`: append the tokens of the argument file to `argInfo`. */
    method ReadArguments(content: string)
      modifies this
      ensures argInfo == old(argInfo) + FileTokens(content)
      ensures State() == old(State())
    {
      var lines := Split(content, '\n');
      var l := 0;
      while l < |lines|
        invariant 0 <= l <= |lines|
        invariant argInfo == old(argInfo) + LineTokens(lines[..l])
        invariant State() == old(State())
      {
        ghost var done := LineTokens(lines[..l]);
        AppendWords(Split(lines[l], ','));
        assert lines[..l + 1][..l] == lines[..l];
        assert LineTokens(lines[..l + 1]) == done + LineWords(lines[l]);
        AppendAssoc(old(argInfo), done, LineWords(lines[l]));
        l := l + 1;
      }
      assert lines[..|lines|] == lines;
    }

    /** The inner loop of `readArguments`: append the trimmed non-blank pieces of one line. */
    method AppendWords(pieces: seq<string>)
      modifies this
      ensures argInfo == old(argInfo) + Kept(pieces)
      ensures State() == old(State())
    {
      var p := 0;
      while p < |pieces|
        invariant 0 <= p <= |pieces|
        invariant argInfo == old(argInfo) + Kept(pieces[..p])
        invariant State() == old(State())
      {
        ghost var done := Kept(pieces[..p]);
        var word := TrimBlanks(pieces[p]);
        assert pieces[..p + 1][..p] == pieces[..p];
        assert Kept(pieces[..p + 1]) == done + Trimmed(pieces[p]);
        AppendAssoc(old(argInfo), done, Trimmed(pieces[p]));
        if word.Some? {
          argInfo := argInfo + [word.value];
        }
        p := p + 1;
      }
      assert pieces[..|pieces|] == pieces;
    }

    /** `setupBuffers<T>(vidx)`. */
    method SetupBuffers(vidx: nat, e: ElemType, files: map<string, nat>) returns (r: Result<nat, ReproError>)
      modifies this
      ensures argInfo == old(argInfo)
      ensures var s := SetupSpec(argInfo, vidx, e, files, old(State()));
              r.Success? == s.Success? && (r.Success? ==> r.value == s.value.0 && State() == s.value.1)
    {
      ghost var rs0 := State();
      if vidx + 2 >= |argInfo| {
        return Failure(OutOfRange);
      }
      var file := argInfo[vidx + 2];
      if file !in files {
        return Failure(FileMissing(file));
      }
      var n := files[file] / ElemSize(e);
      var id := |buffers|;
      if vidx + 3 >= |argInfo| {
        return Failure(OutOfRange);
      }
      var arrType := Stoi(argInfo[vidx + 3]);
      if arrType.None? {
        return Failure(InvalidNumber(argInfo[vidx + 3]));
      }
      if arrType.value != 0 {
        buffers := buffers + [DeviceBuffer(e, n, file, false)];
        devOutput := Some(id);
        hostOutputSize := Some(n);
        var t := OutputType(e);
        if t.Some? {
          outType := t;
        }
      } else {
        buffers := buffers + [DeviceBuffer(e, n, file, true)];
      }
      assert SetupSpec(argInfo, vidx, e, files, rs0) == Success((id, State()));
      return Success(id);
    }

    /** Bind `value` at slot `narg` and advance `narg`. */
    static method Bind(h: Handler<Bound>, narg: nat, value: Bound, ghost args: seq<Bound>)
      returns (narg': nat, ghost args': seq<Bound>)
      requires h.args == BindingsOf(args) && narg == |args|
      modifies h
      ensures args' == args + [value] && narg' == |args'| && h.args == BindingsOf(args')
    {
      BindingsOfSnoc(args, value);
      h.SetArg(narg, value);
      narg' := narg + 1;
      args' := args + [value];
    }

    /** The `Array` branch of the walk. */
    method ArrayStep(files: map<string, nat>, h: Handler<Bound>, vidx: nat, narg: nat, ghost args: seq<Bound>,
                     ghost grid: GridArgs)
      returns (err: Option<ReproError>, narg': nat, ghost args': seq<Bound>)
      requires h.args == BindingsOf(args) && narg == |args|
      modifies this, h
      ensures argInfo == old(argInfo)
      ensures var spec := ArrayRecord(argInfo, files, WalkState(vidx, args, grid, old(State())));
              (err.None? <==> spec.Success?) &&
              (err.None? ==> spec.value == WalkState(vidx, args', grid, State()) &&
                             h.args == BindingsOf(args') && narg' == |args'|)
    {
      narg', args' := narg, args;
      if vidx + 1 >= |argInfo| {
        return Some(OutOfRange), narg', args';
      }
      var e := ArrayElem(argInfo[vidx + 1]);
      if e.Some? {
        var id := SetupBuffers(vidx, e.value, files);
        if id.Failure? {
          return Some(id.error), narg', args';
        }
        narg', args' := Bind(h, narg, BufferArg(id.value), args);
        MarkFloatOutput(vidx, e.value, id.value);
      }
      return None, narg', args';
    }

    /** The output marking that follows the buffer setup of a `float` array. */
    method MarkFloatOutput(vidx: nat, e: ElemType, id: nat)
      requires vidx + 3 < |argInfo| && Stoi(argInfo[vidx + 3]).Some?
      modifies this
      ensures argInfo == old(argInfo)
      ensures State() == FloatOutput(argInfo, vidx, e, id, old(State()))
    {
      if e == Float && Stoi(argInfo[vidx + 3]).value != 0 {
        devOutput := Some(id);
        hostOutputSize := Some(32768);
        outType := Some(FLOAT);
      }
    }

    /** The `Var` branch of the walk. */
    method VarStep(h: Handler<Bound>, vidx: nat, narg: nat, ghost args: seq<Bound>, ghost grid: GridArgs)
      returns (err: Option<ReproError>, narg': nat, ghost args': seq<Bound>)
      requires h.args == BindingsOf(args) && narg == |args|
      modifies h
      ensures var spec := VarRecord(argInfo, WalkState(vidx, args, grid, State()));
              (err.None? <==> spec.Success?) &&
              (err.None? ==> spec.value == WalkState(vidx, args', grid, State()) &&
                             h.args == BindingsOf(args') && narg' == |args'|)
    {
      narg', args' := narg, args;
      if vidx + 1 >= |argInfo| {
        return Some(OutOfRange), narg', args';
      }
      if argInfo[vidx + 1] == "float" {
        if vidx + 2 >= |argInfo| {
          return Some(OutOfRange), narg', args';
        }
        narg', args' := Bind(h, narg', FloatArg(argInfo[vidx + 2]), args');
      }
      if argInfo[vidx + 1] == "int" {
        var v := Number(argInfo, vidx + 2);
        if v.Failure? {
          return Some(v.error), narg', args';
        }
        narg', args' := Bind(h, narg', IntArg(v.value), args');
      }
      return None, narg', args';
    }

    /** The record at `vidx`, dispatched on its kind. */
    method ApplyRecord(files: map<string, nat>, h: Handler<Bound>, vidx: nat, narg: nat, grid: GridArgs,
                       ghost args: seq<Bound>)
      returns (err: Option<ReproError>, narg': nat, grid': GridArgs, ghost args': seq<Bound>)
      requires vidx < |argInfo|
      requires h.args == BindingsOf(args) && narg == |args|
      modifies this, h
      ensures argInfo == old(argInfo)
      ensures var spec := RecordOf(argInfo, files, WalkState(vidx, args, grid, old(State())));
              (err.None? <==> spec.Success?) &&
              (err.None? ==> spec.value == WalkState(vidx, args', grid', State()) &&
                             h.args == BindingsOf(args') && narg' == |args'|)
    {
      narg', grid', args' := narg, grid, args;
      err := None;
      var head := argInfo[vidx];
      if head == "Array" {
        err, narg', args' := ArrayStep(files, h, vidx, narg, args, grid);
      } else if head == "Var" {
        err, narg', args' := VarStep(h, vidx, narg, args, grid);
      } else if head == "SM" {
        var bytes := Number(argInfo, vidx + 2);
        if bytes.Failure? {
          return Some(bytes.error), narg', grid', args';
        }
        narg', args' := Bind(h, narg, LocalAccessor(ToSizeT(bytes.value)), args);
      } else if head == "GDIM" {
        var g := GridOf(argInfo, vidx);
        if g.Failure? {
          return Some(g.error), narg', grid', args';
        }
        grid' := g.value;
      }
    }

    /** One record of the walk, and the advance of `vidx`. */
    method Record(files: map<string, nat>, h: Handler<Bound>, vidx: nat, narg: nat, grid: GridArgs,
                  ghost args: seq<Bound>)
      returns (err: Option<ReproError>, vidx': nat, narg': nat, grid': GridArgs, ghost args': seq<Bound>)
      requires vidx < |argInfo|
      requires h.args == BindingsOf(args) && narg == |args|
      modifies this, h
      ensures argInfo == old(argInfo)
      ensures var spec := Step(argInfo, files, WalkState(vidx, args, grid, old(State())));
              (err.None? <==> spec.Success?) &&
              (err.None? ==> spec.value == WalkState(vidx', args', grid', State()) &&
                             h.args == BindingsOf(args') && narg' == |args'|)
    {
      err, narg', grid', args' := ApplyRecord(files, h, vidx, narg, grid, args);
      vidx' := vidx + if argInfo[vidx] == "GDIM" then 6 else 4;
    }

    /**
     * The command group `main` submits: walk the records, binding each
     * argument at the next slot, then launch over the configured grid.
     */
    method Submit(files: map<string, nat>) returns (r: Result<Launch, ReproError>)
      modifies this
      ensures argInfo == old(argInfo)
      ensures var w := Walk(argInfo, files, WalkState(0, [], InitialGrid, old(State())));
              (r.Success? <==> w.Success? && LaunchRange(w.value.grid).Success?) &&
              (r.Success? ==> r.value == Launch(LaunchRange(w.value.grid).value, BindingsOf(w.value.args)) &&
                              State() == w.value.repro)
    {
      var h := new Handler<Bound>();
      var vidx := 0;
      var narg := 0;
      var grid := InitialGrid;
      ghost var args: seq<Bound> := [];
      ghost var goal := Walk(argInfo, files, WalkState(0, [], InitialGrid, State()));
      while vidx < |argInfo|
        invariant argInfo == old(argInfo)
        invariant goal == Walk(argInfo, files, WalkState(vidx, args, grid, State()))
        invariant h.args == BindingsOf(args) && narg == |args|
        invariant fresh(h)
        decreases |argInfo| - vidx
      {
        var err;
        err, vidx, narg, grid, args := Record(files, h, vidx, narg, grid, args);
        if err.Some? {
          return Failure(err.value);
        }
      }
      var range := LaunchRange(grid);
      if range.Failure? {
        return Failure(range.error);
      }
      h.ParallelFor(range.value);
      return Success(Launch(range.value, h.args));
    }
  }

  // ---------------------------------------------------------------------
  // The output comparison
  // ---------------------------------------------------------------------

  /**
   * The comparison loop of `main`: `idx` counts leading elements equal to
   * the reference, stopping at the first mismatch.
   */
  method CountMatching<T(==)>(output: seq<T>, reference: seq<T>, hostOutputSize: nat) returns (idx: nat)
    requires hostOutputSize <= |output| && hostOutputSize <= |reference|
    ensures idx <= hostOutputSize
    ensures forall i :: 0 <= i < idx ==> output[i] == reference[i]
    ensures idx < hostOutputSize ==> output[idx] != reference[idx]
  {
    idx := 0;
    var i := 0;
    while i < hostOutputSize
      invariant 0 <= i <= hostOutputSize && idx == i
      invariant forall j :: 0 <= j < idx ==> output[j] == reference[j]
    {
      if output[i] == reference[i] {
        idx := idx + 1;
      } else {
        break;
      }
      i := i + 1;
    }
  }
}
