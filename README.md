# System information window: scraping and dispatch logic

SystemInfoGUI is a Swing window. It shows the CPU model, the total RAM and the GPU model of the
host, plus a CPU-usage bar refreshed every second. It gets each value by running a system command
and scraping the command's standard output: `wmic` on Windows, and `lscpu`, `/proc/meminfo` and
`lspci` on Linux and macOS.

This project models the logic that decides what the window shows:

- **The scrapers.** Seven of the eight `get*` routines (`getLinuxCPUUsage` is left out), which turn command output into text or a number.
  Each is cut at the point where it starts reading the process output, so it takes the lines
  `BufferedReader.readLine` would return.
- **The OS dispatch.** The choice between the Windows and Unix routines in `fetchSystemInfo`.
- **The usage dispatch.** The same choice in the CPU-usage TimerTask.
- **The label updates.** What `fetchSystemInfo` does to its three labels, including the case where
  a routine throws part-way through.

The modules:

- `JavaLang` (`java_lang.dfy`) models the Java library behaviour the code relies on:
  - `String.trim`, which removes characters up to U+0020 from both ends;
  - `String.contains`;
  - `String.split(":")`, which drops trailing empty strings;
  - `Long.parseLong` and `Integer.parseInt`, with their ranges;
  - `Long.toString`;
  - `/` on `long`, which truncates toward zero;
  - `replaceAll("\\D+", "")`;
  - `toLowerCase`.
- `Scrapers` (`scrapers.dfy`) holds the routines:
  - One method per routine, with the Java routine's loop.
  - Each method is proved equal to a specification function.
  - Lemmas state what each function computes: when it throws, how it splits over parts of the
    output, and an independent sum or field formulation.
  - An exception is a `Result` value: `NumberFormat` for `NumberFormatException`, and
    `IndexOutOfBounds` for `ArrayIndexOutOfBoundsException`.
- `Gui` (`system_info_gui.dfy`) holds the window:
  - The OS-family tests.
  - A class `SystemInfoGui` whose three string fields stand for the texts of `cpuLabel`,
    `ramLabel` and `gpuLabel`.
  - The constructor and `FetchSystemInfo`, proved against a function `Fetched` of the previous
    labels, the OS name and the captured command output.
- `Scenarios` (`scenarios.dfy`) works through concrete outputs and OS names.

`getWindowsCPUInfo` and `getWindowsGPUInfo` have the same loop, so both are `WindowsNameInfo`.
`getLinuxCPUInfo` and `getLinuxGPUInfo` differ only in the index passed to `split(":")[k]`, so
both are `LinuxFieldInfo` with `k` = 1 or 2.

The OS name (`System.getProperty("os.name")`) and the captured output of every command are
parameters.

Behaviour of the code worth knowing:

- **"Darwin Kernel".** Lower-cased, "Darwin Kernel" contains "win", so a Darwin-named OS takes
  the Windows routines in `fetchSystemInfo` and in the usage TimerTask
  (`Scenarios.DarwinTakesWindowsBranch`). The name macOS actually reports, "Mac OS X", takes the
  Unix routines.
- **Failing fields.** An exception from any routine ends the whole `try` block; no field gets a
  fallback value. The labels set earlier keep their new text, and the rest keep whatever they
  showed before (`Gui.FetchedKeepsLabelsAfterFailure`).
- **The usage value.** `getWindowsCPUUsage` parses every data line, not only the last one. A
  non-numeric line anywhere makes it throw, even when the last line is a valid number
  (`Scenarios.LoadGarbageBeforeLastLine`).

## Model

| member | source | states |
|---|---|---|
| JavaLang.TrimSpec | src/SystemInfoGUI.java:98 | `trim` returns a contiguous slice of its argument with no character at most U+0020 at either end, and only such characters are removed around it |
| JavaLang.TrimOfPadded | src/SystemInfoGUI.java:113 | `trim` of a text padded on both sides with characters at most U+0020 is the text itself, when that text has visible ends |
| JavaLang.TrimIdempotent | src/SystemInfoGUI.java:98 | trimming twice is trimming once |
| JavaLang.ContainsIff | src/SystemInfoGUI.java:97 | `contains` holds exactly when the pattern occurs at some index |
| JavaLang.MissingCharNotContained | src/SystemInfoGUI.java:112 | a string lacking one character of the pattern does not contain it |
| JavaLang.OccurrenceContained | src/SystemInfoGUI.java:55 | one occurrence at an index is enough for `contains` |
| JavaLang.SplitAllFields | src/SystemInfoGUI.java:159 | splitting at every colon gives one more field than there are colons, none containing a colon |
| JavaLang.JoinSplitAll | src/SystemInfoGUI.java:159 | putting the separator back between the fields rebuilds the line |
| JavaLang.SplitAllJoin | src/SystemInfoGUI.java:159 | splitting a join of separator-free fields gives back those fields |
| JavaLang.DropTrailingEmptyDropsEmpty | src/SystemInfoGUI.java:159 | `split` removes only empty strings, and only at the end |
| JavaLang.SplitIndex | src/SystemInfoGUI.java:159 | `split(":")[k]` exists exactly when some field from k on is non-empty, and is then the k-th field between colons |
| JavaLang.ParseDecimal | src/SystemInfoGUI.java:113 | a parse that succeeds lies within the type's range; a failing one reports the input string |
| JavaLang.ParseLongRejects | src/SystemInfoGUI.java:113 | a non-digit, other than one leading sign before more text, makes `parseLong` and `parseInt` throw; so does the empty string |
| JavaLang.ParseSigned | src/SystemInfoGUI.java:113 | a '+' or '-' followed by digits parses to the digits' value, negated for '-', when that lies in the type's range, and throws otherwise |
| JavaLang.ParseLongDigits | src/SystemInfoGUI.java:174 | a non-empty digit string parses to its decimal value exactly when that fits in a long |
| JavaLang.ParseIntDigits | src/SystemInfoGUI.java:144 | a non-empty digit string parses to its decimal value exactly when that fits in an int |
| JavaLang.NatToDecimal | src/SystemInfoGUI.java:57 | the decimal text of a natural number is non-empty, made of digits, denotes the number and has no leading zero |
| JavaLang.DecimalStep | src/SystemInfoGUI.java:57 | the text of n is the text of n / 10 followed by the last digit |
| JavaLang.ParseLongToString | src/SystemInfoGUI.java:57 | `parseLong` reads back what string concatenation writes for every long |
| JavaLang.JavaDiv | src/SystemInfoGUI.java:117 | long division truncates toward zero: the remainder has the dividend's sign and is smaller than the divisor |
| JavaLang.DigitsOnly | src/SystemInfoGUI.java:174 | `replaceAll("\\D+", "")` leaves only digits and never lengthens the line |
| JavaLang.DigitsOnlyAppend | src/SystemInfoGUI.java:174 | removing non-digits works piece by piece over a concatenation |
| JavaLang.DigitsOnlyKeepsDigits | src/SystemInfoGUI.java:174 | a string is unchanged by the removal exactly when it is all digits |
| JavaLang.ToLowerAt | src/SystemInfoGUI.java:53 | lower-casing maps each character on its own, and yields a lower-case letter exactly where there was a letter |
| Scrapers.WindowsNameInfo | src/SystemInfoGUI.java:90-103 | the loop of getWindowsCPUInfo and getWindowsGPUInfo (lines 120-133) returns `NameText` of the output |
| Scrapers.NameTextAppend | src/SystemInfoGUI.java:96-102 | the name text of two consecutive parts of the output is their two texts joined without separator |
| Scrapers.NameTextCons | src/SystemInfoGUI.java:97-98 | the first line contributes its trimmed text unless it is empty or contains "Name", a data line with that word included |
| Scrapers.WindowsRamInfo | src/SystemInfoGUI.java:105-118 | the loop of getWindowsRAMInfo returns `WindowsRam` of the output: the running total divided by 1048576, or the exception that stops the loop |
| Scrapers.TotalErrSticks | src/SystemInfoGUI.java:111-115 | once a summand has thrown, later summands change nothing |
| Scrapers.TotalAppend | src/SystemInfoGUI.java:111-115 | the total over two consecutive parts is the first total plus the second, or the second's exception |
| Scrapers.TotalFails | src/SystemInfoGUI.java:111-115 | the total throws exactly when some summand does, and then with the first one |
| Scrapers.CapacityPiecesAppend | src/SystemInfoGUI.java:111-114 | the per-line summands of two parts of the output are those of each part, in order |
| Scrapers.CapacityTotalErrSticks | src/SystemInfoGUI.java:111-115 | output read after a failing capacity line does not matter |
| Scrapers.CapacityTotalAppend | src/SystemInfoGUI.java:111-115 | running totals add up over consecutive parts of the output |
| Scrapers.CapacityTotalFails | src/SystemInfoGUI.java:112-113 | getWindowsRAMInfo throws exactly when some non-empty line without "Capacity" is not a long, and then with the first such line, trimmed |
| Scrapers.CapacityTotalSum | src/SystemInfoGUI.java:110-114 | with no failing line the running total equals the sum, read from the front, of the capacities of the data lines |
| Scrapers.WindowsRamIsSum | src/SystemInfoGUI.java:110-117 | with no failing line the result is that sum divided by 1048576 with Java's truncating division |
| Scrapers.NoDataSumsToZero | src/SystemInfoGUI.java:110-114 | output without data lines has a capacity sum of 0 |
| Scrapers.WindowsRamNoData | src/SystemInfoGUI.java:110-117 | output without data lines, the header alone or nothing, gives 0 MB |
| Scrapers.WindowsCpuUsage | src/SystemInfoGUI.java:135-149 | the loop of getWindowsCPUUsage returns `LoadPercentage` of the output |
| Scrapers.LoadPercentageErrSticks | src/SystemInfoGUI.java:142-146 | once a line has thrown, later output changes nothing |
| Scrapers.LoadPercentageFails | src/SystemInfoGUI.java:142-146 | the call throws exactly when some data line is not an int, wherever it is |
| Scrapers.LoadPercentageNoData | src/SystemInfoGUI.java:141-148 | output without data lines gives 0 |
| Scrapers.LoadPercentageLastWins | src/SystemInfoGUI.java:142-146 | when no earlier line throws, the result is the parse of the last data line |
| Scrapers.ConcatSnoc | src/SystemInfoGUI.java:157-161 | one more line appends its piece to the text, or stops it with the line's exception |
| Scrapers.LinePiecesAppend | src/SystemInfoGUI.java:157-161 | the per-line pieces of two parts of the output are those of each part, in order |
| Scrapers.ConcatErrSticks | src/SystemInfoGUI.java:157-161 | once a piece has thrown, later pieces change nothing |
| Scrapers.ConcatAppend | src/SystemInfoGUI.java:157-161 | two successful parts concatenate their texts without separator |
| Scrapers.ConcatFails | src/SystemInfoGUI.java:157-161 | the text fails exactly when some piece does |
| Scrapers.LinuxFieldInfo | src/SystemInfoGUI.java:151-164 | the loop of getLinuxCPUInfo (k = 1) and getLinuxGPUInfo (k = 2, lines 180-193) returns `FieldText` of the output |
| Scrapers.FieldTextErrSticks | src/SystemInfoGUI.java:157-161 | output read after a line that lacks the field does not matter |
| Scrapers.FieldTextAppend | src/SystemInfoGUI.java:157-161 | the field texts of two successful parts are concatenated without separator |
| Scrapers.LacksFieldIff | src/SystemInfoGUI.java:159 | a non-empty line lacks field k exactly when every field between colons from k on is empty; otherwise it contributes field k, trimmed |
| Scrapers.NoColonLacksModelName | src/SystemInfoGUI.java:159 | a non-empty line without a colon has neither field 1 nor field 2 |
| Scrapers.FieldOfJoined | src/SystemInfoGUI.java:188 | a line made of colon-free fields, the last non-empty, contributes field k trimmed, so text after a later colon is dropped; past the last field it throws with index k and the field count |
| Scrapers.FieldTextFails | src/SystemInfoGUI.java:157-161 | the call throws exactly when some non-empty line lacks the field |
| Scrapers.LinuxRamInfo | src/SystemInfoGUI.java:166-178 | getLinuxRAMInfo returns `MemTotal` of the output: 0 for no output, otherwise the first line's digits read as one long and divided by 1024 |
| Scrapers.MemTotalFirstLine | src/SystemInfoGUI.java:173-177 | only the first line matters: no digits throws on the empty string, digits within the long range give their value divided by 1024, a larger number throws |
| Gui.PlatformByOccurrence | src/SystemInfoGUI.java:55-63 | the Windows routines run exactly when "win" occurs in the lower-cased name; the Unix routines exactly when it does not and one of "nix", "nux", "mac" does |
| Gui.LoadPlatformAgrees | src/SystemInfoGUI.java:80 | the usage TimerTask never reports an unsupported OS, picks Windows exactly when the fetch does, and runs the Unix routine where the fetch says "Unsupported OS" |
| Gui.SystemInfoGui.constructor | src/SystemInfoGUI.java:23-25 | the labels start as "CPU: ", "RAM: ", "GPU: " and then show one fetch (line 48) |
| Gui.SystemInfoGui.FetchSystemInfo | src/SystemInfoGUI.java:52-71 | the new labels are `Fetched` of the old ones, the OS name and the command output |
| Gui.SequencedKeepsLabelsAfterFailure | src/SystemInfoGUI.java:54-70 | inside the try block, the labels set before the first exception show their new text, and that label and the later ones their old text |
| Gui.FetchedKeepsLabelsAfterFailure | src/SystemInfoGUI.java:54-70 | the same for a whole fetch on either OS family, with the texts "CPU: "+cpu, "RAM: "+mb+" MB", "GPU: "+gpu |
| Gui.FetchedOnWindows | src/SystemInfoGUI.java:55-58 | on Windows the CPU label is always replaced, and the RAM and GPU labels are replaced exactly when the memory routine succeeds |
| Gui.FetchedUnsupported | src/SystemInfoGUI.java:63-66 | on any other OS every label reads "Unsupported OS" |
| Gui.FetchedIdempotent | src/SystemInfoGUI.java:52-71 | refreshing again with the same output changes nothing more |
| Gui.RamLabelReadsBack | src/SystemInfoGUI.java:57 | the RAM label is "RAM: ", the number, " MB", and `parseLong` reads the number back |
| Scenarios.DarwinTakesWindowsBranch | src/SystemInfoGUI.java:53-55 | "Darwin Kernel" selects the Windows routines, in the fetch and in the usage TimerTask |
| Scenarios.MacTakesUnixBranch | src/SystemInfoGUI.java:59 | "Mac OS X" selects the Unix routines |
| Scenarios.WindowsNameExample | src/SystemInfoGUI.java:96-102 | the header, one padded name line and a blank line give the trimmed name |
| Scenarios.FourLineTotal | src/SystemInfoGUI.java:110-117 | four lines that do not throw give the sum of their capacities divided by 1048576 |
| Scenarios.WindowsRamExample | src/SystemInfoGUI.java:110-117 | capacities 1073741824 and 2147483648 under the header give 3072 MB |
| Scenarios.LoadExample | src/SystemInfoGUI.java:141-148 | the header and "30" give 30 |
| Scenarios.LoadGarbageBeforeLastLine | src/SystemInfoGUI.java:142-146 | "abc" before "30" makes the call throw, although "30" alone gives 30 |
| Scenarios.OneLineFieldText | src/SystemInfoGUI.java:157-161 | output of one non-empty line gives that line's field, or its exception |
| Scenarios.LspciExample | src/SystemInfoGUI.java:188 | an lspci VGA line gives the vendor text after the second colon, trimmed |
| Scenarios.LscpuLineHasNoThirdField | src/SystemInfoGUI.java:188 | an lscpu-style line with one colon throws for field 2, an index past a two-element array |
| Scenarios.MemTotalExample | src/SystemInfoGUI.java:173-177 | "MemTotal:       16318480 kB" gives 15936 MB |

## Left out

- Process execution (`Runtime.exec`), the readers and the shell pipelines (`grep`, `sed`, `awk`, `top`) are foreign I/O. The model takes the captured standard-output lines as given. This covers the command at src/SystemInfoGUI.java:167, which runs without a shell, so `|` and `grep` reach `cat` as file names. It also covers I/O exceptions and exit statuses.
- `getLinuxCPUUsage` (src/SystemInfoGUI.java:195-208) is left out because it depends on `Double.parseDouble`, a cast from double and floating-point arithmetic in `awk`. Only the choice of routine in the usage TimerTask is modelled (`Gui.LoadPlatformAgrees`).
- The Swing layout, the widgets, the FlatLaf theme and `main` are UI. The labels are modelled only as three strings.
- `JProgressBar.setValue` and its clamping are library behaviour that is not shown in the repository.
- The `java.util.Timer` schedule and the `SwingUtilities.invokeLater` handoff are threading and periodic execution, and are left out.
- `printStackTrace` is left out. The model swallows the exception exactly as the catch block does.
- Scrapers.WindowsRamInfo: the running `long` total is an unbounded integer, so the model does not wrap around when the capacities sum past 2^63 - 1. Individual lines are still range-checked by `parseLong`.
- JavaLang.ToLower: only ASCII letters are lower-cased. Locale rules and non-ASCII letters are not modelled. Under a Turkish locale Java's `toLowerCase` maps a capital I to a dotless ı, so an `os.name` spelling the i of "win" or "nix" as a capital would not match; the names Java reports ("Windows 10", "Linux", "Mac OS X") have that i in lower case already.
- JavaLang.ParseDecimal: only the ASCII digits 0-9 are accepted. Java also accepts other Unicode decimal digits.
- JavaLang.Split: only a one-character separator that is not a regular-expression metacharacter is modelled, which is the only form the code uses (":").
