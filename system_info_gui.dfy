/** The window's state that is not Swing layout: the three label texts, the choice of OS family
    in fetchSystemInfo and in the CPU-usage TimerTask, and the order in which fetchSystemInfo updates
    the labels, where an exception leaves the remaining labels as they were. */
module Gui {
  import opened JavaLang
  import opened Scrapers

  /** Which family of get* routines is called. */
  datatype Platform = Windows | Unix | Unsupported

  /** The if / else-if chain of fetchSystemInfo on the lower-cased `os.name`. */
  function PlatformOf(os: string): Platform {
    if Contains(os, "win") then Windows
    else if Contains(os, "nix") || Contains(os, "nux") || Contains(os, "mac") then Unix
    else Unsupported
  }

  /** The family fetchSystemInfo picks for the property `os.name`. */
  function StaticPlatform(osName: string): Platform {
    PlatformOf(ToLower(osName))
  }

  /** The conditional of the CPU-usage TimerTask: Windows when the lower-cased name contains "win",
      the Unix routine for every other name. */
  function LoadPlatformOf(os: string): Platform {
    if Contains(os, "win") then Windows else Unix
  }

  function LoadPlatform(osName: string): Platform {
    LoadPlatformOf(ToLower(osName))
  }

  /** The static chain in terms of where the markers occur: "win" anywhere wins, whatever else
      the name contains; otherwise any of "nix", "nux", "mac" selects the Unix routines. */
  lemma PlatformByOccurrence(os: string)
    ensures PlatformOf(os) == Windows <==> exists i :: OccursAt(os, "win", i)
    ensures PlatformOf(os) == Unix <==>
      && (forall i :: !OccursAt(os, "win", i))
      && exists i :: OccursAt(os, "nix", i) || OccursAt(os, "nux", i) || OccursAt(os, "mac", i)
  {
    ContainsIff(os, "win");
    ContainsIff(os, "nix");
    ContainsIff(os, "nux");
    ContainsIff(os, "mac");
  }

  /** The usage TimerTask never reports an unsupported OS, agrees with the static chain on Windows,
      and takes the Unix routine where the static chain would say "Unsupported OS". */
  lemma LoadPlatformAgrees(os: string)
    ensures LoadPlatformOf(os) != Unsupported
    ensures LoadPlatformOf(os) == Windows <==> PlatformOf(os) == Windows
    ensures PlatformOf(os) == Unsupported ==> LoadPlatformOf(os) == Unix
  {
  }

  // ---------------------------------------------------------------- the labels

  /** The texts of cpuLabel, ramLabel and gpuLabel. */
  datatype Labels = Labels(cpu: string, ram: string, gpu: string)

  const INITIAL_LABELS := Labels("CPU: ", "RAM: ", "GPU: ")
  const UNSUPPORTED_OS := "Unsupported OS"

  /** The captured standard output of the CPU, RAM and GPU commands the chosen branch runs. */
  datatype Outputs = Outputs(cpu: seq<string>, ram: seq<string>, gpu: seq<string>)

  function CpuInfo(p: Platform, lines: seq<string>): Result<string>
    requires p != Unsupported
  {
    if p == Windows then Ok(NameText(lines)) else FieldText(lines, MODEL_NAME_FIELD)
  }

  function RamInfo(p: Platform, lines: seq<string>): Result<int>
    requires p != Unsupported
  {
    if p == Windows then WindowsRam(lines) else MemTotal(lines)
  }

  function GpuInfo(p: Platform, lines: seq<string>): Result<string>
    requires p != Unsupported
  {
    if p == Windows then Ok(NameText(lines)) else FieldText(lines, GPU_NAME_FIELD)
  }

  function RamLabel(mb: int): string {
    "RAM: " + LongToString(mb) + " MB"
  }

  /** The new text of the CPU label, or the exception its get* throws. */
  function CpuAttempt(p: Platform, lines: seq<string>): Result<string>
    requires p != Unsupported
  {
    match CpuInfo(p, lines)
    case Err(e) => Err(e)
    case Ok(cpu) => Ok("CPU: " + cpu)
  }

  function RamAttempt(p: Platform, lines: seq<string>): Result<string>
    requires p != Unsupported
  {
    match RamInfo(p, lines)
    case Err(e) => Err(e)
    case Ok(mb) => Ok(RamLabel(mb))
  }

  function GpuAttempt(p: Platform, lines: seq<string>): Result<string>
    requires p != Unsupported
  {
    match GpuInfo(p, lines)
    case Err(e) => Err(e)
    case Ok(gpu) => Ok("GPU: " + gpu)
  }

  /** The three setText calls inside one try block: each label is set in turn, and the first
      exception ends the block and is swallowed. */
  function Sequenced(prior: Labels, cpu: Result<string>, ram: Result<string>, gpu: Result<string>): Labels {
    match cpu
    case Err(_) => prior
    case Ok(c) =>
      match ram
      case Err(_) => prior.(cpu := c)
      case Ok(r) =>
        match gpu
        case Err(_) => prior.(cpu := c, ram := r)
        case Ok(g) => Labels(c, r, g)
  }

  /** The labels after fetchSystemInfo. */
  function Fetched(prior: Labels, osName: string, out: Outputs): Labels {
    var p := StaticPlatform(osName);
    if p == Unsupported then Labels(UNSUPPORTED_OS, UNSUPPORTED_OS, UNSUPPORTED_OS)
    else Sequenced(prior, CpuAttempt(p, out.cpu), RamAttempt(p, out.ram), GpuAttempt(p, out.gpu))
  }

  /** The window of SystemInfoGUI, reduced to the text of its three labels. */
  class SystemInfoGui {
    var cpuLabel: string
    var ramLabel: string
    var gpuLabel: string

    function Shown(): Labels
      reads this
    {
      Labels(cpuLabel, ramLabel, gpuLabel)
    }

    /** The constructor creates the labels with their initial text and fetches once. */
    constructor (osName: string, out: Outputs)
      ensures Shown() == Fetched(INITIAL_LABELS, osName, out)
    {
      cpuLabel, ramLabel, gpuLabel := "CPU: ", "RAM: ", "GPU: ";
      new;
      FetchSystemInfo(osName, out);
    }

    /** fetchSystemInfo, run at start-up and by the Refresh button. */
    method FetchSystemInfo(osName: string, out: Outputs)
      modifies this
      ensures Shown() == Fetched(old(Shown()), osName, out)
    {
      var os := ToLower(osName);
      if Contains(os, "win") {
        var cpu := WindowsNameInfo(out.cpu);
        cpuLabel := "CPU: " + cpu;
        var ram := WindowsRamInfo(out.ram);
        if ram.Err? { return; }
        ramLabel := "RAM: " + LongToString(ram.value) + " MB";
        var gpu := WindowsNameInfo(out.gpu);
        gpuLabel := "GPU: " + gpu;
      } else if Contains(os, "nix") || Contains(os, "nux") || Contains(os, "mac") {
        var cpu := LinuxFieldInfo(out.cpu, MODEL_NAME_FIELD);
        if cpu.Err? { return; }
        cpuLabel := "CPU: " + cpu.value;
        var ram := LinuxRamInfo(out.ram);
        if ram.Err? { return; }
        ramLabel := "RAM: " + LongToString(ram.value) + " MB";
        var gpu := LinuxFieldInfo(out.gpu, GPU_NAME_FIELD);
        if gpu.Err? { return; }
        gpuLabel := "GPU: " + gpu.value;
      } else {
        cpuLabel := UNSUPPORTED_OS;
        ramLabel := UNSUPPORTED_OS;
        gpuLabel := UNSUPPORTED_OS;
      }
    }
  }

  // ---------------------------------------------------------------- what a fetch does to the labels

  function LabelSeq(l: Labels): seq<string> { [l.cpu, l.ram, l.gpu] }

  /** The texts of the attempts that succeed before the first one that throws. */
  function SucceededPrefix(attempts: seq<Result<string>>): seq<string> {
    if attempts == [] || attempts[0].Err? then []
    else [attempts[0].value] + SucceededPrefix(attempts[1..])
  }

  /** An exception part-way through the block leaves the labels set before it with their new
      text, and the failing label and those after it with their previous text. */
  lemma SequencedKeepsLabelsAfterFailure(prior: Labels, cpu: Result<string>, ram: Result<string>, gpu: Result<string>)
    ensures var done := SucceededPrefix([cpu, ram, gpu]);
      |done| <= 3 && LabelSeq(Sequenced(prior, cpu, ram, gpu)) == done + LabelSeq(prior)[|done|..]
  {
    var a := [cpu, ram, gpu];
    assert a[1..] == [ram, gpu];
    assert a[1..][1..] == [gpu];
    assert a[1..][1..][1..] == [];
    assert SucceededPrefix([gpu]) == if gpu.Err? then [] else [gpu.value];
    assert SucceededPrefix([ram, gpu]) ==
      if ram.Err? then [] else [ram.value] + SucceededPrefix([gpu]);
  }

  /** The same for fetchSystemInfo on either family, with the attempts it makes. */
  lemma FetchedKeepsLabelsAfterFailure(prior: Labels, osName: string, out: Outputs)
    requires StaticPlatform(osName) != Unsupported
    ensures var p := StaticPlatform(osName);
      var done := SucceededPrefix([CpuAttempt(p, out.cpu), RamAttempt(p, out.ram), GpuAttempt(p, out.gpu)]);
      |done| <= 3 && LabelSeq(Fetched(prior, osName, out)) == done + LabelSeq(prior)[|done|..]
  {
    var p := StaticPlatform(osName);
    SequencedKeepsLabelsAfterFailure(prior, CpuAttempt(p, out.cpu), RamAttempt(p, out.ram), GpuAttempt(p, out.gpu));
  }

  /** On Windows the name routines cannot throw: the CPU label is always replaced, and the GPU
      label is replaced exactly when the memory routine succeeds. */
  lemma FetchedOnWindows(prior: Labels, osName: string, out: Outputs)
    requires StaticPlatform(osName) == Windows
    ensures Fetched(prior, osName, out).cpu == "CPU: " + NameText(out.cpu)
    ensures WindowsRam(out.ram).Ok? ==>
      Fetched(prior, osName, out) ==
        Labels("CPU: " + NameText(out.cpu), RamLabel(WindowsRam(out.ram).value), "GPU: " + NameText(out.gpu))
    ensures WindowsRam(out.ram).Err? ==>
      Fetched(prior, osName, out).ram == prior.ram && Fetched(prior, osName, out).gpu == prior.gpu
  {
  }

  /** On an OS outside both families every label reads "Unsupported OS", whatever it said before. */
  lemma FetchedUnsupported(prior: Labels, osName: string, out: Outputs)
    requires StaticPlatform(osName) == Unsupported
    ensures forall l :: l in LabelSeq(Fetched(prior, osName, out)) ==> l == "Unsupported OS"
  {
  }

  /** Refreshing again with the same command output changes nothing more. */
  lemma FetchedIdempotent(prior: Labels, osName: string, out: Outputs)
    ensures Fetched(Fetched(prior, osName, out), osName, out) == Fetched(prior, osName, out)
  {
  }

  /** The RAM label carries the number of megabytes so that parseLong reads it back. */
  lemma RamLabelReadsBack(mb: int)
    requires LONG_MIN <= mb <= LONG_MAX
    ensures var l := RamLabel(mb);
      |l| >= 8 && l[..5] == "RAM: " && l[|l| - 3..] == " MB" && ParseLong(l[5..|l| - 3]) == Ok(mb)
  {
    var l := RamLabel(mb);
    assert l[5..|l| - 3] == LongToString(mb);
    ParseLongToString(mb);
  }
}
