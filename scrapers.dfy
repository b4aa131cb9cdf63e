/** The text logic of the get* routines of SystemInfoGUI, cut where they start reading process
    output: each takes the lines `BufferedReader.readLine` would return, in order, without their
    line terminators. Every routine is a method with the Java routine's loop, proved equal to a
    specification function; the lemmas below each function state what the routine computes. */
module Scrapers {
  import opened JavaLang

  /** A line the wmic loops act on: non-empty and without the column header `header`. */
  predicate IsDataLine(line: string, header: string) {
    line != [] && !Contains(line, header)
  }

  function Last<T>(s: seq<T>): T requires s != [] { s[|s| - 1] }
  function DropLast<T>(s: seq<T>): seq<T> requires s != [] { s[..|s| - 1] }

  lemma DropLastAppend<T>(a: seq<T>, b: seq<T>)
    requires b != []
    ensures a + b != [] && DropLast(a + b) == a + DropLast(b) && Last(a + b) == Last(b)
  {
    assert (a + b)[..|a + b| - 1] == a + b[..|b| - 1];
  }

  lemma PrefixStep<T>(s: seq<T>, i: nat)
    requires i < |s|
    ensures s[..i + 1] != [] && DropLast(s[..i + 1]) == s[..i] && Last(s[..i + 1]) == s[i]
  {
    assert s[..i + 1][..i] == s[..i];
  }

  // ================================================================ getWindowsCPUInfo, getWindowsGPUInfo


  /** What one line adds to the `wmic ... get name` result. */
  function NamePiece(line: string): string {
    if IsDataLine(line, "Name") then Trim(line) else []
  }

  function NameText(lines: seq<string>): string {
    if lines == [] then [] else NameText(DropLast(lines)) + NamePiece(Last(lines))
  }

  /** The StringBuilder loop of getWindowsCPUInfo and, identically, of getWindowsGPUInfo. */
  method WindowsNameInfo(lines: seq<string>) returns (name: string)
    ensures name == NameText(lines)
  {
    var result: string := [];
    var i := 0;
    while i < |lines|
      invariant 0 <= i <= |lines|
      invariant result == NameText(lines[..i])
    {
      var line := lines[i];
      if line != [] && !Contains(line, "Name") {
        result := result + Trim(line);
      }
      PrefixStep(lines, i);
      i := i + 1;
    }
    assert lines[..|lines|] == lines;
    name := result;
  }

  /** The name text is a homomorphism: output split anywhere gives the two texts, concatenated
      with no separator. */
  lemma {:induction false} NameTextAppend(a: seq<string>, b: seq<string>)
    ensures NameText(a + b) == NameText(a) + NameText(b)
  {
    if b == [] {
      assert a + b == a;
    } else {
      DropLastAppend(a, b);
      NameTextAppend(a, DropLast(b));
      calc {
        NameText(a + b);
        NameText(a + DropLast(b)) + NamePiece(Last(b));
        (NameText(a) + NameText(DropLast(b))) + NamePiece(Last(b));
        NameText(a) + (NameText(DropLast(b)) + NamePiece(Last(b)));
      }
    }
  }

  /** Read from the front: the first line contributes its trimmed text unless it is empty or
      mentions "Name" (a header, or a data line that happens to contain the word). */
  lemma NameTextCons(line: string, rest: seq<string>)
    ensures NameText([line] + rest) ==
      (if line != [] && !Contains(line, "Name") then Trim(line) else []) + NameText(rest)
  {
    NameTextAppend([line], rest);
    assert DropLast([line]) == [];
  }

  // ================================================================ getWindowsRAMInfo

  const BYTES_PER_MB := 1024 * 1024

  /** A data line of `wmic memorychip get capacity` that Long.parseLong rejects. */
  predicate CapacityRejected(line: string) {
    IsDataLine(line, "Capacity") && ParseLong(Trim(line)).Err?
  }

  /** What one line adds to `totalMemory`: its parsed value for a data line, 0 otherwise. */
  function CapacityPiece(line: string): Result<int> {
    if IsDataLine(line, "Capacity") then ParseLong(Trim(line)) else Ok(0)
  }

  function CapacityPieces(lines: seq<string>): seq<Result<int>> {
    seq(|lines|, i requires 0 <= i < |lines| => CapacityPiece(lines[i]))
  }

  /** The pieces added in order; the first exception stops the loop. */
  function Total(pieces: seq<Result<int>>): Result<int> {
    if pieces == [] then Ok(0)
    else
      match Total(DropLast(pieces))
      case Err(e) => Err(e)
      case Ok(t) =>
        match Last(pieces)
        case Err(e) => Err(e)
        case Ok(v) => Ok(t + v)
  }

  /** The running `totalMemory` of getWindowsRAMInfo, or the exception that stops it. */
  function CapacityTotal(lines: seq<string>): Result<int> {
    Total(CapacityPieces(lines))
  }

  function WindowsRam(lines: seq<string>): Result<int> {
    match CapacityTotal(lines)
    case Err(e) => Err(e)
    case Ok(t) => Ok(JavaDiv(t, BYTES_PER_MB))
  }

  lemma CapacityPiecesAppend(a: seq<string>, b: seq<string>)
    ensures CapacityPieces(a + b) == CapacityPieces(a) + CapacityPieces(b)
  {
    var l, r := CapacityPieces(a + b), CapacityPieces(a) + CapacityPieces(b);
    assert |l| == |r|;
    forall i | 0 <= i < |l| ensures l[i] == r[i] {
      if i < |a| { assert (a + b)[i] == a[i]; } else { assert (a + b)[i] == b[i - |a|]; }
    }
  }

  lemma TotalSnoc(pieces: seq<Result<int>>, q: Result<int>)
    ensures Total(pieces + [q]) ==
      match Total(pieces)
      case Err(e) => Err(e)
      case Ok(t) => (match q case Err(e) => Err(e) case Ok(v) => Ok(t + v))
  {
    assert DropLast(pieces + [q]) == pieces;
  }

  /** getWindowsRAMInfo: the loop that sums the capacities, then the conversion to MB. */
  method WindowsRamInfo(lines: seq<string>) returns (r: Result<int>)
    ensures r == WindowsRam(lines)
  {
    var totalMemory := 0;
    var i := 0;
    while i < |lines|
      invariant 0 <= i <= |lines|
      invariant CapacityTotal(lines[..i]) == Ok(totalMemory)
    {
      var line := lines[i];
      assert lines[..i + 1] == lines[..i] + [line];
      CapacityPiecesAppend(lines[..i], [line]);
      TotalSnoc(CapacityPieces(lines[..i]), CapacityPiece(line));
      if line != [] && !Contains(line, "Capacity") {
        var parsed := ParseLong(Trim(line));
        if parsed.Err? {
          CapacityTotalErrSticks(lines[..i + 1], lines[i + 1..]);
          assert lines[..i + 1] + lines[i + 1..] == lines;
          return Err(parsed.error);
        }
        totalMemory := totalMemory + parsed.value;
      }
      i := i + 1;
    }
    assert lines[..|lines|] == lines;
    r := Ok(JavaDiv(totalMemory, BYTES_PER_MB));
  }

  lemma {:induction false} TotalErrSticks(x: seq<Result<int>>, y: seq<Result<int>>)
    requires Total(x).Err?
    ensures Total(x + y) == Total(x)
  {
    if y == [] {
      assert x + y == x;
    } else {
      DropLastAppend(x, y);
      TotalErrSticks(x, DropLast(y));
    }
  }

  lemma {:induction false} TotalAppend(x: seq<Result<int>>, y: seq<Result<int>>)
    requires Total(x).Ok?
    ensures Total(x + y) ==
      match Total(y)
      case Err(e) => Err(e)
      case Ok(t) => Ok(Total(x).value + t)
  {
    if y == [] {
      assert x + y == x;
    } else {
      DropLastAppend(x, y);
      TotalAppend(x, DropLast(y));
    }
  }

  /** The total fails exactly when a piece does, and then with the first failing piece. */
  lemma {:induction false} TotalFails(pieces: seq<Result<int>>)
    ensures Total(pieces).Err? <==> exists i :: 0 <= i < |pieces| && pieces[i].Err?
    ensures Total(pieces).Err? ==>
      exists i :: 0 <= i < |pieces| && pieces[i] == Total(pieces)
        && forall j :: 0 <= j < i ==> pieces[j].Ok?
  {
    if pieces != [] {
      var p := DropLast(pieces);
      TotalFails(p);
      assert forall i :: 0 <= i < |p| ==> p[i] == pieces[i];
      if Total(p).Err? {
        var i :| 0 <= i < |p| && p[i] == Total(p) && forall j :: 0 <= j < i ==> p[j].Ok?;
        assert pieces[i] == Total(pieces);
      } else if Last(pieces).Err? {
        assert pieces[|pieces| - 1] == Total(pieces);
        assert forall j :: 0 <= j < |pieces| - 1 ==> pieces[j].Ok? by {
          TotalFails(p);
        }
      } else {
        forall i | 0 <= i < |pieces| ensures pieces[i].Ok? {
          if i < |p| { assert pieces[i] == p[i]; }
        }
      }
    }
  }

  /** Once a line has thrown, nothing read after it matters. */
  lemma CapacityTotalErrSticks(a: seq<string>, b: seq<string>)
    requires CapacityTotal(a).Err?
    ensures CapacityTotal(a + b) == CapacityTotal(a)
  {
    CapacityPiecesAppend(a, b);
    TotalErrSticks(CapacityPieces(a), CapacityPieces(b));
  }

  /** Totals add up over consecutive parts of the output. */
  lemma CapacityTotalAppend(a: seq<string>, b: seq<string>)
    requires CapacityTotal(a).Ok?
    ensures CapacityTotal(a + b) ==
      match CapacityTotal(b)
      case Err(e) => Err(e)
      case Ok(y) => Ok(CapacityTotal(a).value + y)
  {
    CapacityPiecesAppend(a, b);
    TotalAppend(CapacityPieces(a), CapacityPieces(b));
  }

  /** The call throws exactly when some data line is not a long, and then with the first one. */
  lemma CapacityTotalFails(lines: seq<string>)
    ensures CapacityTotal(lines).Err? <==> exists i :: 0 <= i < |lines| && CapacityRejected(lines[i])
    ensures CapacityTotal(lines).Err? ==>
      exists i :: 0 <= i < |lines| && CapacityRejected(lines[i])
        && (forall j :: 0 <= j < i ==> !CapacityRejected(lines[j]))
        && CapacityTotal(lines).error == NumberFormat(Trim(lines[i]))
  {
    var pieces := CapacityPieces(lines);
    TotalFails(pieces);
    assert forall i :: 0 <= i < |lines| ==> (pieces[i].Err? <==> CapacityRejected(lines[i]));
    if CapacityTotal(lines).Err? {
      var i :| 0 <= i < |pieces| && pieces[i] == Total(pieces) && forall j :: 0 <= j < i ==> pieces[j].Ok?;
      assert CapacityRejected(lines[i]);
    }
  }

  /** The bytes one line of a successful call adds to the total. */
  function CapacityOf(line: string): int {
    if IsDataLine(line, "Capacity") then
      match ParseLong(Trim(line))
      case Ok(v) => v
      case Err(_) => 0
    else 0
  }

  function CapacitySum(lines: seq<string>): int {
    if lines == [] then 0 else CapacityOf(lines[0]) + CapacitySum(lines[1..])
  }

  /** With every data line a long, the result is the sum of the capacities, in bytes, divided by
      1048576 with Java's truncating division. */
  lemma WindowsRamIsSum(lines: seq<string>)
    requires forall i :: 0 <= i < |lines| ==> !CapacityRejected(lines[i])
    ensures WindowsRam(lines) == Ok(JavaDiv(CapacitySum(lines), BYTES_PER_MB))
  {
    CapacityTotalSum(lines);
  }

  lemma {:induction false} CapacityTotalSum(lines: seq<string>)
    requires forall i :: 0 <= i < |lines| ==> !CapacityRejected(lines[i])
    ensures CapacityTotal(lines) == Ok(CapacitySum(lines))
  {
    if lines != [] {
      var head, tail := [lines[0]], lines[1..];
      assert head + tail == lines;
      assert CapacityPieces(head) == [] + [CapacityPiece(lines[0])];
      TotalSnoc([], CapacityPiece(lines[0]));
      assert !CapacityRejected(lines[0]);
      assert CapacityTotal(head) == Ok(CapacityOf(lines[0]));
      assert forall i :: 0 <= i < |tail| ==> tail[i] == lines[i + 1];
      CapacityTotalSum(tail);
      CapacityTotalAppend(head, tail);
    }
  }

  /** Output with no data line, such as the header alone or nothing at all, gives 0 MB. */
  lemma WindowsRamNoData(lines: seq<string>)
    requires forall i :: 0 <= i < |lines| ==> !IsDataLine(lines[i], "Capacity")
    ensures WindowsRam(lines) == Ok(0)
  {
    NoDataSumsToZero(lines);
    WindowsRamIsSum(lines);
  }

  lemma {:induction false} NoDataSumsToZero(lines: seq<string>)
    requires forall i :: 0 <= i < |lines| ==> !IsDataLine(lines[i], "Capacity")
    ensures CapacitySum(lines) == 0
  {
    if lines != [] {
      assert !IsDataLine(lines[0], "Capacity");
      assert forall i :: 0 <= i < |lines[1..]| ==> lines[1..][i] == lines[i + 1];
      NoDataSumsToZero(lines[1..]);
    }
  }

  // ================================================================ getWindowsCPUUsage


  /** A data line of `wmic cpu get loadpercentage` that Integer.parseInt rejects. */
  predicate LoadRejected(line: string) {
    IsDataLine(line, "LoadPercentage") && ParseInt(Trim(line)).Err?
  }

  /** The `usage` variable of getWindowsCPUUsage, overwritten by every data line. */
  function LoadPercentage(lines: seq<string>): Result<int> {
    if lines == [] then Ok(0)
    else
      match LoadPercentage(DropLast(lines))
      case Err(e) => Err(e)
      case Ok(u) =>
        var line := Last(lines);
        if IsDataLine(line, "LoadPercentage") then ParseInt(Trim(line)) else Ok(u)
  }

  /** getWindowsCPUUsage. */
  method WindowsCpuUsage(lines: seq<string>) returns (r: Result<int>)
    ensures r == LoadPercentage(lines)
  {
    var usage := 0;
    var i := 0;
    while i < |lines|
      invariant 0 <= i <= |lines|
      invariant LoadPercentage(lines[..i]) == Ok(usage)
    {
      var line := lines[i];
      PrefixStep(lines, i);
      if line != [] && !Contains(line, "LoadPercentage") {
        var parsed := ParseInt(Trim(line));
        if parsed.Err? {
          LoadPercentageErrSticks(lines[..i + 1], lines[i + 1..]);
          assert lines[..i + 1] + lines[i + 1..] == lines;
          return Err(parsed.error);
        }
        usage := parsed.value;
      }
      i := i + 1;
    }
    assert lines[..|lines|] == lines;
    r := Ok(usage);
  }

  lemma {:induction false} LoadPercentageErrSticks(a: seq<string>, b: seq<string>)
    requires LoadPercentage(a).Err?
    ensures LoadPercentage(a + b) == LoadPercentage(a)
  {
    if b == [] {
      assert a + b == a;
    } else {
      DropLastAppend(a, b);
      LoadPercentageErrSticks(a, DropLast(b));
    }
  }

  /** The call throws exactly when some data line, not only the last, is not an int. */
  lemma {:induction false} LoadPercentageFails(lines: seq<string>)
    ensures LoadPercentage(lines).Err? <==> exists i :: 0 <= i < |lines| && LoadRejected(lines[i])
  {
    if lines != [] {
      var p := DropLast(lines);
      LoadPercentageFails(p);
      assert forall i :: 0 <= i < |p| ==> p[i] == lines[i];
      if LoadPercentage(p).Err? {
        var i :| 0 <= i < |p| && LoadRejected(p[i]);
        assert LoadRejected(lines[i]);
      } else if LoadRejected(Last(lines)) {
        assert LoadRejected(lines[|lines| - 1]);
      } else {
        forall i | 0 <= i < |lines| ensures !LoadRejected(lines[i]) {
          if i < |p| { assert lines[i] == p[i]; }
        }
      }
    }
  }

  /** Without a data line the load is 0. */
  lemma {:induction false} LoadPercentageNoData(lines: seq<string>)
    requires forall i :: 0 <= i < |lines| ==> !IsDataLine(lines[i], "LoadPercentage")
    ensures LoadPercentage(lines) == Ok(0)
  {
    if lines != [] {
      LoadPercentageNoData(DropLast(lines));
      assert !IsDataLine(lines[|lines| - 1], "LoadPercentage");
    }
  }

  /** When no line throws, the last data line wins. */
  lemma {:induction false} LoadPercentageLastWins(lines: seq<string>, k: nat)
    requires k < |lines| && IsDataLine(lines[k], "LoadPercentage")
    requires forall j :: k < j < |lines| ==> !IsDataLine(lines[j], "LoadPercentage")
    requires forall j :: 0 <= j < k ==> !LoadRejected(lines[j])
    ensures LoadPercentage(lines) == ParseInt(Trim(lines[k]))
  {
    var p := DropLast(lines);
    if k == |lines| - 1 {
      LoadPercentageFails(p);
      assert forall i :: 0 <= i < |p| ==> p[i] == lines[i];
    } else {
      LoadPercentageLastWins(p, k);
      assert !IsDataLine(lines[|lines| - 1], "LoadPercentage");
    }
  }

  // ================================================================ getLinuxCPUInfo, getLinuxGPUInfo

  /** `line.split(":")[1]` in getLinuxCPUInfo, `line.split(":")[2]` in getLinuxGPUInfo. */
  const MODEL_NAME_FIELD: nat := 1
  const GPU_NAME_FIELD: nat := 2

  /** What one non-empty line adds: the trimmed k-th field of split(":"), or the exception that
      indexing past the end of the array throws. */
  function FieldPiece(line: string, k: nat): Result<string> {
    var fields := Split(line, ':');
    if k < |fields| then Ok(Trim(fields[k])) else Err(IndexOutOfBounds(k, |fields|))
  }

  /** What one line adds to the StringBuilder: nothing for an empty line. */
  function LinePiece(line: string, k: nat): Result<string> {
    if line == [] then Ok([]) else FieldPiece(line, k)
  }

  function LinePieces(lines: seq<string>, k: nat): seq<Result<string>> {
    seq(|lines|, i requires 0 <= i < |lines| => LinePiece(lines[i], k))
  }

  /** The pieces appended in order; the first exception stops the loop. */
  function Concat(pieces: seq<Result<string>>): Result<string> {
    if pieces == [] then Ok([])
    else
      match Concat(DropLast(pieces))
      case Err(e) => Err(e)
      case Ok(t) =>
        match Last(pieces)
        case Err(e) => Err(e)
        case Ok(q) => Ok(t + q)
  }

  function FieldText(lines: seq<string>, k: nat): Result<string> {
    Concat(LinePieces(lines, k))
  }

  lemma LinePiecesAppend(a: seq<string>, b: seq<string>, k: nat)
    ensures LinePieces(a + b, k) == LinePieces(a, k) + LinePieces(b, k)
  {
    var l, r := LinePieces(a + b, k), LinePieces(a, k) + LinePieces(b, k);
    assert |l| == |r|;
    forall i | 0 <= i < |l| ensures l[i] == r[i] {
      if i < |a| { assert (a + b)[i] == a[i]; } else { assert (a + b)[i] == b[i - |a|]; }
    }
  }

  lemma ConcatSnoc(pieces: seq<Result<string>>, q: Result<string>)
    ensures Concat(pieces + [q]) ==
      match Concat(pieces)
      case Err(e) => Err(e)
      case Ok(t) => (match q case Err(e) => Err(e) case Ok(v) => Ok(t + v))
  {
    assert DropLast(pieces + [q]) == pieces;
  }

  /** The StringBuilder loop of getLinuxCPUInfo (k = 1) and getLinuxGPUInfo (k = 2). */
  method LinuxFieldInfo(lines: seq<string>, k: nat) returns (r: Result<string>)
    ensures r == FieldText(lines, k)
  {
    var result: string := [];
    var i := 0;
    while i < |lines|
      invariant 0 <= i <= |lines|
      invariant FieldText(lines[..i], k) == Ok(result)
    {
      var line := lines[i];
      assert lines[..i + 1] == lines[..i] + [line];
      LinePiecesAppend(lines[..i], [line], k);
      ConcatSnoc(LinePieces(lines[..i], k), LinePiece(line, k));
      if line != [] {
        var fields := Split(line, ':');
        if |fields| <= k {
          FieldTextErrSticks(lines[..i + 1], lines[i + 1..], k);
          assert lines[..i + 1] + lines[i + 1..] == lines;
          return Err(IndexOutOfBounds(k, |fields|));
        }
        result := result + Trim(fields[k]);
      } else {
        assert result + [] == result;
      }
      i := i + 1;
    }
    assert lines[..|lines|] == lines;
    r := Ok(result);
  }

  lemma {:induction false} ConcatErrSticks(x: seq<Result<string>>, y: seq<Result<string>>)
    requires Concat(x).Err?
    ensures Concat(x + y) == Concat(x)
  {
    if y == [] {
      assert x + y == x;
    } else {
      DropLastAppend(x, y);
      ConcatErrSticks(x, DropLast(y));
    }
  }

  lemma {:induction false} ConcatAppend(x: seq<Result<string>>, y: seq<Result<string>>)
    requires Concat(x).Ok? && Concat(y).Ok?
    ensures Concat(x + y) == Ok(Concat(x).value + Concat(y).value)
  {
    if y == [] {
      assert x + y == x;
      assert Concat(x).value + [] == Concat(x).value;
    } else {
      DropLastAppend(x, y);
      ConcatAppend(x, DropLast(y));
      var tx, td, q := Concat(x).value, Concat(DropLast(y)).value, Last(y).value;
      assert (tx + td) + q == tx + (td + q);
    }
  }

  lemma {:induction false} ConcatFails(pieces: seq<Result<string>>)
    ensures Concat(pieces).Err? <==> exists i :: 0 <= i < |pieces| && pieces[i].Err?
  {
    if pieces != [] {
      var p := DropLast(pieces);
      ConcatFails(p);
      assert forall i :: 0 <= i < |p| ==> p[i] == pieces[i];
      if Concat(p).Err? {
        var i :| 0 <= i < |p| && p[i].Err?;
        assert pieces[i].Err?;
      } else if Last(pieces).Err? {
        assert pieces[|pieces| - 1].Err?;
      } else {
        forall i | 0 <= i < |pieces| ensures pieces[i].Ok? {
          if i < |p| { assert pieces[i] == p[i]; }
        }
      }
    }
  }

  /** Once a line has thrown, later output changes nothing. */
  lemma FieldTextErrSticks(a: seq<string>, b: seq<string>, k: nat)
    requires FieldText(a, k).Err?
    ensures FieldText(a + b, k) == FieldText(a, k)
  {
    LinePiecesAppend(a, b, k);
    ConcatErrSticks(LinePieces(a, k), LinePieces(b, k));
  }

  /** When both parts of the output succeed, the texts are concatenated with no separator. */
  lemma FieldTextAppend(a: seq<string>, b: seq<string>, k: nat)
    requires FieldText(a, k).Ok? && FieldText(b, k).Ok?
    ensures FieldText(a + b, k) == Ok(FieldText(a, k).value + FieldText(b, k).value)
  {
    LinePiecesAppend(a, b, k);
    ConcatAppend(LinePieces(a, k), LinePieces(b, k));
  }

  /** A non-empty line lacks field k when no field from k on, between colons, is non-empty:
      split(":") has dropped them all as trailing empty strings. */
  predicate LacksField(line: string, k: nat) {
    line != [] && |Split(line, ':')| <= k
  }

  lemma LacksFieldIff(line: string, k: nat)
    requires line != []
    ensures LacksField(line, k) <==> forall j :: k <= j < |SplitAll(line, ':')| ==> SplitAll(line, ':')[j] == []
    ensures !LacksField(line, k) ==> FieldPiece(line, k) == Ok(Trim(SplitAll(line, ':')[k]))
  {
    SplitIndex(line, ':', k);
  }

  /** A line written as colon-free fields, the last one non-empty, gives back field k trimmed
      when there is one, and throws ArrayIndexOutOfBoundsException(k) past the last field. */
  lemma FieldOfJoined(fields: seq<string>, k: nat)
    requires |fields| >= 1 && fields[|fields| - 1] != []
    requires forall i :: 0 <= i < |fields| ==> ':' !in fields[i]
    ensures k < |fields| ==> FieldPiece(Join(fields, ':'), k) == Ok(Trim(fields[k]))
    ensures k >= |fields| ==> FieldPiece(Join(fields, ':'), k) == Err(IndexOutOfBounds(k, |fields|))
  {
    var line := Join(fields, ':');
    SplitAllJoin(fields, ':');
    JoinNonEmpty(fields, ':');
    SplitIndex(line, ':', k);
    if ':' in line {
      assert DropTrailingEmpty(fields) == fields;
    } else {
      assert |fields| == 1;
    }
  }

  lemma {:induction false} JoinNonEmpty(fields: seq<string>, sep: char)
    requires |fields| >= 1 && fields[|fields| - 1] != []
    ensures Join(fields, sep) != []
  {
    if |fields| > 1 {
      JoinNonEmpty(fields[1..], sep);
    }
  }

  /** A non-empty line without any colon has only field 0: getLinuxCPUInfo throws on it. */
  lemma NoColonLacksModelName(line: string)
    requires line != [] && ':' !in line
    ensures LacksField(line, MODEL_NAME_FIELD) && LacksField(line, GPU_NAME_FIELD)
  {
    assert Split(line, ':') == [line];
  }

  /** The call throws exactly when some non-empty line lacks field k. */
  lemma FieldTextFails(lines: seq<string>, k: nat)
    ensures FieldText(lines, k).Err? <==> exists i :: 0 <= i < |lines| && LacksField(lines[i], k)
  {
    var pieces := LinePieces(lines, k);
    ConcatFails(pieces);
    assert forall i :: 0 <= i < |lines| ==> (pieces[i].Err? <==> LacksField(lines[i], k));
  }

  // ================================================================ getLinuxRAMInfo

  const KB_PER_MB := 1024

  /** getLinuxRAMInfo reads one line at most. */
  function MemTotal(lines: seq<string>): Result<int> {
    if lines == [] then Ok(0)
    else
      match ParseLong(DigitsOnly(lines[0]))
      case Err(e) => Err(e)
      case Ok(v) => Ok(JavaDiv(v, KB_PER_MB))
  }

  /** getLinuxRAMInfo. */
  method LinuxRamInfo(lines: seq<string>) returns (r: Result<int>)
    ensures r == MemTotal(lines)
  {
    var totalMemory := 0;
    if |lines| > 0 {
      var parsed := ParseLong(DigitsOnly(lines[0]));
      if parsed.Err? {
        return Err(parsed.error);
      }
      totalMemory := parsed.value;
    }
    r := Ok(JavaDiv(totalMemory, KB_PER_MB));
  }

  /** The digits of the first line, read as one number of kB and divided by 1024; no digits at all
      make parseLong("") throw; so does a number longer than a long. */
  lemma MemTotalFirstLine(line: string, rest: seq<string>)
    ensures var d := DigitsOnly(line);
      MemTotal([line] + rest) ==
        if d == [] then Err(NumberFormat([]))
        else if DigitsValue(d) <= LONG_MAX then Ok(DigitsValue(d) / KB_PER_MB)
        else Err(NumberFormat(d))
  {
    var d := DigitsOnly(line);
    assert ([line] + rest)[0] == line;
    if d != [] {
      ParseLongDigits(d);
    }
  }
}
