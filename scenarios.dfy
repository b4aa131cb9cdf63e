/** Concrete command outputs and OS names, and what the model says the window shows for them. */
module Scenarios {
  import opened JavaLang
  import opened Scrapers
  import opened Gui

  lemma DarwinLowersToWin(n: string)
    requires n == "Darwin Kernel"
    ensures |ToLower(n)| == 13 && ToLower(n)[3..6] == "win"
  {
    ToLowerAt(n, 3);
    ToLowerAt(n, 4);
    ToLowerAt(n, 5);
  }

  lemma DarwinContainsWin()
    ensures Contains(ToLower("Darwin Kernel"), "win")
  {
    DarwinLowersToWin("Darwin Kernel");
    OccurrenceContained(ToLower("Darwin Kernel"), "win", 3);
  }

  /** A kernel name in the Unix family that takes the Windows routines: lower-cased, "Darwin"
      contains "win". */
  lemma DarwinTakesWindowsBranch()
    ensures StaticPlatform("Darwin Kernel") == Windows && LoadPlatform("Darwin Kernel") == Windows
  {
    DarwinContainsWin();
  }

  /** Mac OS X, the name Java reports on macOS, takes the Unix routines. */
  lemma MacLowersToMac(n: string)
    requires n == "Mac OS X"
    ensures |ToLower(n)| == 8 && ToLower(n)[..3] == "mac" && 'w' !in ToLower(n)
  {
    ToLowerAt(n, 0);
    ToLowerAt(n, 1);
    ToLowerAt(n, 2);
    forall i | 0 <= i < 8 ensures ToLower(n)[i] != 'w' {
      ToLowerAt(n, i);
    }
  }

  lemma MacTakesUnixBranch()
    ensures StaticPlatform("Mac OS X") == Unix
  {
    MacLowersToMac("Mac OS X");
    MissingCharNotContained(ToLower("Mac OS X"), "win", 'w');
    OccurrenceContained(ToLower("Mac OS X"), "mac", 0);
  }

  // ---------------------------------------------------------------- wmic cpu get name

  lemma NameHeader(h: string)
    requires h == "Name  "
    ensures Contains(h, "Name")
  {
    assert StartsWith(h, "Name");
  }

  lemma CpuNameNotHeader(c: string)
    requires c == "Intel(R) Core(TM) i7  "
    ensures !Contains(c, "Name")
  {
    MissingCharNotContained(c, "Name", 'N');
  }

  lemma CpuNameLine(c: string)
    requires c == "Intel(R) Core(TM) i7  "
    ensures !Contains(c, "Name") && Trim(c) == "Intel(R) Core(TM) i7"
  {
    CpuNameNotHeader(c);
    TrimOfPadded([], "Intel(R) Core(TM) i7", "  ");
    assert [] + "Intel(R) Core(TM) i7" + "  " == c;
  }

  /** The header, one padded name and the blank last line: the trimmed name alone. */
  lemma WindowsNameExample(h: string, c: string)
    requires h == "Name  " && c == "Intel(R) Core(TM) i7  "
    ensures NameText([h, c, ""]) == "Intel(R) Core(TM) i7"
  {
    NameHeader(h);
    CpuNameLine(c);
    NameTextCons(h, [c, ""]);
    NameTextCons(c, [""]);
    NameTextCons("", []);
    assert [h] + [c, ""] == [h, c, ""] && [c] + [""] == [c, ""] && [""] + [] == [""];
  }

  // ---------------------------------------------------------------- wmic memorychip get capacity

  lemma Decimal1073741824()
    ensures LongToString(1073741824) == "1073741824"
  {
    assert NatToDecimal(1) == "1";
    DecimalStep(10, "1");
    DecimalStep(107, "10");
    DecimalStep(1073, "107");
    DecimalStep(10737, "1073");
    DecimalStep(107374, "10737");
    DecimalStep(1073741, "107374");
    DecimalStep(10737418, "1073741");
    DecimalStep(107374182, "10737418");
    DecimalStep(1073741824, "107374182");
  }

  lemma Decimal2147483648()
    ensures LongToString(2147483648) == "2147483648"
  {
    assert NatToDecimal(2) == "2";
    DecimalStep(21, "2");
    DecimalStep(214, "21");
    DecimalStep(2147, "214");
    DecimalStep(21474, "2147");
    DecimalStep(214748, "21474");
    DecimalStep(2147483, "214748");
    DecimalStep(21474836, "2147483");
    DecimalStep(214748364, "21474836");
    DecimalStep(2147483648, "214748364");
  }

  /** A module line holding the decimal text of a capacity, padded the way wmic pads its columns. */
  lemma PaddedCapacityLine(n: nat, line: string)
    requires n <= LONG_MAX && line == LongToString(n) + "  "
    ensures !CapacityRejected(line) && CapacityOf(line) == n
  {
    var d := LongToString(n);
    forall i | 0 <= i < |line| ensures line[i] != 'C' {
      if i < |d| { assert IsDigit(d[i]); }
    }
    MissingCharNotContained(line, "Capacity", 'C');
    assert IsDigit(d[0]) && IsDigit(d[|d| - 1]);
    TrimOfPadded([], d, "  ");
    assert [] + d + "  " == line;
    ParseLongToString(n);
  }

  lemma HeaderLine()
    ensures !CapacityRejected("Capacity  ") && CapacityOf("Capacity  ") == 0
  {
    assert StartsWith("Capacity  ", "Capacity");
  }

  lemma FourLineTotal(h: string, x: string, y: string, e: string)
    requires !CapacityRejected(h) && !CapacityRejected(x) && !CapacityRejected(y) && !CapacityRejected(e)
    ensures WindowsRam([h, x, y, e]) ==
      Ok(JavaDiv(CapacityOf(h) + CapacityOf(x) + CapacityOf(y) + CapacityOf(e), BYTES_PER_MB))
  {
    var lines := [h, x, y, e];
    assert lines[1..] == [x, y, e] && lines[1..][1..] == [y, e] && lines[1..][1..][1..] == [e];
    assert lines[1..][1..][1..][1..] == [];
    forall i | 0 <= i < 4 ensures !CapacityRejected(lines[i]) {
      if i == 0 { assert lines[i] == h; }
      else if i == 1 { assert lines[i] == x; }
      else if i == 2 { assert lines[i] == y; }
      else { assert lines[i] == e; }
    }
    assert [e][1..] == [];
    assert CapacitySum([e]) == CapacityOf(e);
    assert CapacitySum([y, e]) == CapacityOf(y) + CapacitySum([e]);
    assert CapacitySum([x, y, e]) == CapacityOf(x) + CapacitySum([y, e]);
    assert CapacitySum(lines) == CapacityOf(h) + CapacitySum([x, y, e]);
    WindowsRamIsSum(lines);
  }

  /** Two modules of 1 GiB and 2 GiB under the header, and the blank line wmic ends with: 3072 MB. */
  lemma WindowsRamExample(h: string, x: string, y: string, e: string)
    requires h == "Capacity  " && x == "1073741824  " && y == "2147483648  " && e == ""
    ensures WindowsRam([h, x, y, e]) == Ok(3072)
  {
    HeaderLine();
    Decimal1073741824();
    Decimal2147483648();
    PaddedCapacityLine(1073741824, x);
    PaddedCapacityLine(2147483648, y);
    FourLineTotal(h, x, y, e);
    ThreeGibInMb();
  }

  lemma ThreeGibInMb()
    ensures JavaDiv(1073741824 + 2147483648, BYTES_PER_MB) == 3072
  {
  }

  // ---------------------------------------------------------------- lspci | grep 'VGA'

  lemma OneLineFieldText(line: string, k: nat)
    requires line != []
    ensures FieldText([line], k) == FieldPiece(line, k)
  {
    assert LinePieces([line], k) == [] + [FieldPiece(line, k)];
    ConcatSnoc([], FieldPiece(line, k));
    if FieldPiece(line, k).Ok? {
      assert [] + FieldPiece(line, k).value == FieldPiece(line, k).value;
    }
  }

  lemma VendorTrimmed(name: string)
    requires name == "Intel Corporation UHD Graphics 620"
    ensures Trim(" " + name) == name
  {
    TrimOfPadded(" ", name, []);
    assert " " + name + [] == " " + name;
  }

  lemma ControllerHasNoColon(b: string)
    requires b == "02.0 VGA compatible controller"
    ensures ':' !in b
  {
  }

  lemma VendorHasNoColon(name: string)
    requires name == "Intel Corporation UHD Graphics 620"
    ensures ':' !in " " + name
  {
  }

  /** The lspci line of an integrated GPU: the third colon-separated field, trimmed. */
  lemma LspciExample(a: string, b: string, name: string)
    requires a == "00" && b == "02.0 VGA compatible controller" && name == "Intel Corporation UHD Graphics 620"
    ensures FieldText([a + ":" + b + ": " + name], GPU_NAME_FIELD) == Ok(name)
  {
    var c := " " + name;
    var fields := [a, b, c];
    ControllerHasNoColon(b);
    VendorHasNoColon(name);
    assert forall i :: 0 <= i < |fields| ==> ':' !in fields[i];
    assert Join(fields, ':') == a + ":" + b + ": " + name by {
      assert fields[1..] == [b, c] && [b, c][1..] == [c];
      assert Join([b, c], ':') == b + [':'] + c;
      assert a + ":" + b + ": " + name == a + [':'] + (b + [':'] + c);
    }
    FieldOfJoined(fields, GPU_NAME_FIELD);
    VendorTrimmed(name);
    OneLineFieldText(a + ":" + b + ": " + name, GPU_NAME_FIELD);
  }

  /** The lscpu line has one colon, so asking it for the GPU field throws
      ArrayIndexOutOfBoundsException: index 2 of a two-element array. */
  lemma LscpuLineHasNoThirdField(a: string, b: string)
    requires a == "Model name" && b == "   Intel(R) Core(TM) i7"
    ensures FieldText([a + ":" + b], GPU_NAME_FIELD) == Err(IndexOutOfBounds(2, 2))
  {
    var fields := [a, b];
    assert ':' !in a && ':' !in b;
    assert forall i :: 0 <= i < |fields| ==> ':' !in fields[i];
    assert Join(fields, ':') == a + ":" + b by {
      assert fields[1..] == [b];
    }
    FieldOfJoined(fields, GPU_NAME_FIELD);
    OneLineFieldText(a + ":" + b, GPU_NAME_FIELD);
  }

  // ---------------------------------------------------------------- wmic cpu get loadpercentage

  lemma LoadHeader(h: string)
    requires h == "LoadPercentage"
    ensures !IsDataLine(h, "LoadPercentage") && !LoadRejected(h)
  {
    assert StartsWith(h, "LoadPercentage");
  }

  lemma ThirtyParses(u: string)
    requires u == "30"
    ensures ParseInt(u) == Ok(30)
  {
    assert NatToDecimal(3) == "3";
    DecimalStep(30, "3");
    ParseIntDigits(u);
  }

  lemma ThirtyPercent(u: string)
    requires u == "30"
    ensures IsDataLine(u, "LoadPercentage") && ParseInt(Trim(u)) == Ok(30)
  {
    MissingCharNotContained(u, "LoadPercentage", 'L');
    TrimOfPadded([], u, []);
    assert [] + u + [] == u;
    ThirtyParses(u);
  }

  lemma GarbageLine(g: string)
    requires g == "abc"
    ensures LoadRejected(g)
  {
    MissingCharNotContained(g, "LoadPercentage", 'L');
    TrimOfPadded([], g, []);
    assert [] + g + [] == g;
    ParseLongRejects(g, 0);
  }

  lemma LoadExample(h: string, u: string)
    requires h == "LoadPercentage" && u == "30"
    ensures LoadPercentage([h, u]) == Ok(30)
  {
    LoadHeader(h);
    ThirtyPercent(u);
    LoadPercentageLastWins([h, u], 1);
  }

  /** A line that is no number anywhere in the output makes the call throw, although the last
      line is a valid percentage: every data line is parsed, not only the one that is returned. */
  lemma LoadGarbageBeforeLastLine(h: string, g: string, u: string)
    requires h == "LoadPercentage" && g == "abc" && u == "30"
    ensures LoadPercentage([h, g, u]).Err? && LoadPercentage([h, u]) == Ok(30)
  {
    GarbageLine(g);
    LoadPercentageFails([h, g, u]);
    assert [h, g, u][1] == g;
    LoadExample(h, u);
  }

  // ---------------------------------------------------------------- /proc/meminfo

  lemma NoDigitsDropped(s: string)
    requires forall i :: 0 <= i < |s| ==> !IsDigit(s[i])
    ensures DigitsOnly(s) == []
    decreases |s|
  {
    if s != [] {
      NoDigitsDropped(s[1..]);
    }
  }

  lemma Decimal16318480()
    ensures NatToDecimal(16318480) == "16318480"
  {
    assert NatToDecimal(1) == "1";
    DecimalStep(16, "1");
    DecimalStep(163, "16");
    DecimalStep(1631, "163");
    DecimalStep(16318, "1631");
    DecimalStep(163184, "16318");
    DecimalStep(1631848, "163184");
    DecimalStep(16318480, "1631848");
  }

  lemma MemTotalDigits(n: string)
    requires n == "16318480"
    ensures AllDigits(n) && DigitsOnly(n) == n && DigitsValue(n) == 16318480
  {
    Decimal16318480();
    DigitsOnlyKeepsDigits(n);
  }

  lemma DigitsBetween(key: string, n: string, unit: string)
    requires DigitsOnly(key) == [] && DigitsOnly(unit) == [] && AllDigits(n)
    ensures DigitsOnly(key + n + unit) == n
  {
    DigitsOnlyKeepsDigits(n);
    DigitsOnlyAppend(key, n);
    DigitsOnlyAppend(key + n, unit);
    assert [] + n + [] == n;
  }

  /** The MemTotal line of a machine with 16 GB: the digits are 16318480 kB, 15936 MB. */
  lemma MemTotalExample(key: string, n: string, unit: string)
    requires key == "MemTotal:       " && n == "16318480" && unit == " kB"
    ensures MemTotal([key + n + unit]) == Ok(15936)
  {
    NoDigitsDropped(key);
    NoDigitsDropped(unit);
    MemTotalDigits(n);
    DigitsBetween(key, n, unit);
    MemTotalFirstLine(key + n + unit, []);
    assert [key + n + unit] + [] == [key + n + unit];
  }
}
