/** The file-upload control: a file is checked for size and type before
    the caller's upload runs; while it runs a progress ramp creeps towards
    90; the upload's answer sets an error or completes the bar. Drops are
    ignored while disabled or busy. An upload that throws never stops its
    ramp, which goes on stepping the bar after the control settles. */
module FileUpload {
  import opened Wrappers
  import opened Strings
  import opened Seqs
  import opened Js

  /** The file as the browser describes it: its name, its size in bytes
      and its MIME type. */
  datatype FileInfo = FileInfo(name: string, size: int, mime: string)

  const BytesPerMb := 1024 * 1024

  /** `maxSizeMb` defaults to 5 when it is not given. */
  const DefaultMaxSizeMb := 5

  // ---------------------------------------------------------------------
  // Validation
  // ---------------------------------------------------------------------

  function LowerTrim(rule: string): (r: string)
    ensures r == ToLower(Trim(rule))
  {
    ToLower(Trim(rule))
  }

  /** The accepted rules: the `accept` text split at commas, each trimmed
      and lower-cased. */
  function Rules(accept: string): (rules: seq<string>)
    ensures |rules| == |Split(accept, ",")| >= 1
    ensures forall k :: 0 <= k < |rules| ==> rules[k] == ToLower(Trim(Split(accept, ",")[k]))
  {
    Map(LowerTrim, Split(accept, ","))
  }

  /** `.` and the text after the name's last dot, lower-cased (the whole
      name when it has no dot). */
  function Extension(name: string): (ext: string)
    ensures |ext| >= 1 && ext[0] == '.'
  {
    "." + ToLower(LastPiece(name, "."))
  }

  /** A rule accepts a file whose type is the rule, whose extension is the
      rule, or whose type starts with the rule's `x/` when the rule is
      `x/` followed by a star. */
  predicate RuleAccepts(rule: string, mime: string, ext: string) {
    rule == mime || rule == ext || (EndsWith(rule, "/*") && StartsWith(mime, rule[..|rule| - 1]))
  }

  predicate TypeAccepted(accept: string, file: FileInfo) {
    var rules := Rules(accept);
    exists k :: 0 <= k < |rules| && RuleAccepts(rules[k], ToLower(file.mime), Extension(file.name))
  }

  predicate TooLarge(file: FileInfo, maxSizeMb: int) {
    maxSizeMb != 0 && file.size > maxSizeMb * BytesPerMb
  }

  /** `validate`: the size first (a limit of 0 checks nothing), then,
      when `accept` is given, the type; `None` when the file passes. */
  function Validate(file: FileInfo, accept: Option<string>, maxSizeMb: int): (r: Option<string>)
    ensures TooLarge(file, maxSizeMb) ==> r == Some("File too large. Max " + IntToString(maxSizeMb) + "MB.")
    ensures !TooLarge(file, maxSizeMb) && Truthy(accept) && !TypeAccepted(accept.value, file) ==>
      r == Some("Unsupported file type. Allowed: " + accept.value)
    ensures r.None? <==> !TooLarge(file, maxSizeMb) && (Truthy(accept) ==> TypeAccepted(accept.value, file))
  {
    if TooLarge(file, maxSizeMb) then Some("File too large. Max " + IntToString(maxSizeMb) + "MB.")
    else if Truthy(accept) && !TypeAccepted(accept.value, file) then Some("Unsupported file type. Allowed: " + accept.value)
    else None
  }

  /** A text without commas is a single rule. */
  lemma OneRule(accept: string)
    requires !Contains(accept, ",")
    ensures Rules(accept) == [ToLower(Trim(accept))]
  {
    assert Split(accept, ",") == [accept];
    MapSingle(LowerTrim, accept);
  }

  /** With a single rule of a family `x/` and a star, every file whose type, in any case, starts
      with `x/` passes, whatever its name. */
  lemma WildcardAccepts(family: string, file: FileInfo, maxSizeMb: int)
    requires !Contains(family, ",") && ToLower(Trim(family + "/*")) == family + "/*"
    requires StartsWith(ToLower(file.mime), family + "/")
    requires !TooLarge(file, maxSizeMb)
    ensures Validate(file, Some(family + "/*"), maxSizeMb).None?
  {
    var rule := family + "/*";
    assert !Contains(rule, ",") by {
      forall j: nat ensures !OccursAt(rule, ",", j) {
        if j + 1 <= |rule| {
          if j < |family| {
            assert rule[j..j + 1] == family[j..j + 1];
            assert !OccursAt(family, ",", j);
          } else {
            assert rule[j] == "/*"[j - |family|];
          }
        }
      }
    }
    OneRule(rule);
    assert rule[..|rule| - 1] == family + "/";
    assert EndsWith(rule, "/*");
    assert RuleAccepts(Rules(rule)[0], ToLower(file.mime), Extension(file.name));
  }

  /** The extension of `base.ext` is `.ext`, lower-cased, when `ext` has
      no dot. */
  lemma ExtensionOf(base: string, ext: string)
    requires !Contains(ext, ".")
    ensures Extension(base + "." + ext) == "." + ToLower(ext)
  {
    LastPieceAfter(base, ".", ext);
  }

  /** The file's type is compared without regard to case. */
  lemma MimeCaseIgnored(file: FileInfo, accept: Option<string>, maxSizeMb: int)
    ensures Validate(file.(mime := ToUpper(file.mime)), accept, maxSizeMb) == Validate(file, accept, maxSizeMb)
  {
    LowerOfUpper(file.mime);
  }

  /** Without `accept`, only the size decides. */
  lemma NoAcceptSizeOnly(file: FileInfo, maxSizeMb: int)
    ensures Validate(file, None, maxSizeMb).None? <==> !TooLarge(file, maxSizeMb)
    ensures Validate(file, Some(""), maxSizeMb).None? <==> !TooLarge(file, maxSizeMb)
    ensures maxSizeMb == 0 ==> Validate(file, None, maxSizeMb).None?
  {
  }

  // ---------------------------------------------------------------------
  // The progress ramp
  // ---------------------------------------------------------------------

  /** `Math.round((90 - p) * 0.08)` for `p < 90`: `(90 - p) * 2 / 25` is
      never exactly a half, so rounding is adding a half and flooring. */
  function RampGain(p: int): (g: int)
    requires p < 90
  {
    (4 * (90 - p) + 25) / 50
  }

  /** One step of the ramp: below 90 the bar gains at least 1 and never
      passes 90; at 90 or above it stays. */
  function RampStep(p: int): (r: int)
    ensures p < 90 ==> p < r <= 90
    ensures p >= 90 ==> r == p
  {
    if p < 90 then
      var gain := if RampGain(p) > 1 then RampGain(p) else 1;
      if p + gain < 90 then p + gain else 90
    else p
  }

  /** `n` steps of the ramp. */
  function Ramp(p: int, n: nat): int
    decreases n
  {
    if n == 0 then p else Ramp(RampStep(p), n - 1)
  }

  /** From below 90 the ramp never passes 90 and never goes back, and
      after `90 - p` steps it has reached 90. */
  lemma {:induction false} RampBounds(p: int, n: nat)
    requires p <= 90
    ensures p <= Ramp(p, n) <= 90
    ensures n >= 90 - p ==> Ramp(p, n) == 90
    decreases n
  {
    if n > 0 {
      RampBounds(RampStep(p), n - 1);
    }
  }

  // ---------------------------------------------------------------------
  // The control
  // ---------------------------------------------------------------------

  /** The upload's answer: `{ok: true, data}`, `{ok: false, error}`, or a
      thrown error. */
  datatype Reply<T> = Uploaded(data: T) | Failed(error: string) | Thrown

  class Control {
    const accept: Option<string>
    const maxSizeMb: int
    const disabled: bool
    var dragging: bool
    var progress: int
    var loading: bool
    var error: Option<string>
    var fileName: Option<string>
    /** The ramps left stepping by uploads that threw: the throw skips
        `cancelled = true`, so their loops never end. */
    var strayRamps: nat

    /** While an upload runs no error is shown and its file is named. */
    predicate Valid()
      reads this
    {
      loading ==> error.None? && fileName.Some?
    }

    /** Some ramp is stepping: the running upload's, or a stray one. */
    predicate Ramping()
      reads this
    {
      loading || strayRamps > 0
    }

    /** The bar is on screen while loading or while it is above 0. */
    predicate BarShown()
      reads this
    {
      loading || progress > 0
    }

    constructor (accept: Option<string>, maxSizeMb: Option<int>, disabled: bool)
      ensures this.accept == accept && this.disabled == disabled
      ensures this.maxSizeMb == (if maxSizeMb.Some? then maxSizeMb.value else DefaultMaxSizeMb)
      ensures !dragging && progress == 0 && !loading && error.None? && fileName.None? && strayRamps == 0 && Valid()
    {
      this.accept := accept;
      this.maxSizeMb := if maxSizeMb.Some? then maxSizeMb.value else DefaultMaxSizeMb;
      this.disabled := disabled;
      dragging, progress, loading, error, fileName, strayRamps := false, 0, false, None, None, 0;
    }

    /** `runUpload` up to the call of `onUpload`: a file that fails the
        checks sets the error and nothing else, and the upload is not
        called (`started` is false); otherwise the error is cleared, the
        file named, and the bar set to 1. Both ways in, the drop and the
        file input, are closed while an upload runs. */
    method Start(file: FileInfo) returns (started: bool)
      requires Valid() && !loading
      modifies this
      ensures started <==> Validate(file, accept, maxSizeMb).None?
      ensures !started ==> (error == Validate(file, accept, maxSizeMb)
        && progress == old(progress) && loading == old(loading) && fileName == old(fileName))
      ensures started ==> error.None? && fileName == Some(file.name) && loading && progress == 1
      ensures dragging == old(dragging) && strayRamps == old(strayRamps) && Valid()
    {
      var validation := Validate(file, accept, maxSizeMb);
      if validation.Some? {
        error := validation;
        started := false;
        return;
      }
      error, fileName, loading, progress := None, Some(file.name), true, 1;
      started := true;
    }

    /** One step of a ramp: of the running upload's, or of one left
        stepping by an upload that threw; with no ramp, nothing. */
    method Tick()
      requires Valid()
      modifies this
      ensures progress == (if Ramping() then RampStep(old(progress)) else old(progress))
      ensures loading == old(loading) && error == old(error) && fileName == old(fileName) && dragging == old(dragging)
      ensures strayRamps == old(strayRamps) && Valid()
    {
      if Ramping() {
        progress := RampStep(progress);
      }
    }

    /** The upload reporting its own progress. */
    method Report(v: int)
      requires Valid()
      modifies this
      ensures progress == v
      ensures loading == old(loading) && error == old(error) && fileName == old(fileName) && dragging == old(dragging)
      ensures strayRamps == old(strayRamps) && Valid()
    {
      progress := v;
    }

    /** `runUpload` after `onUpload` answers; the upload was started, so
        the control is loading. A failure shows its error and empties the
        bar with nothing handed on; a success fills the bar and hands the
        data to `onUploaded`; both stop this upload's ramp. A throw skips
        the stop, so its ramp goes on as a stray one. Every way, the
        control is no longer busy. */
    method Finish<T>(reply: Reply<T>) returns (handed: Option<T>)
      requires Valid() && loading
      modifies this
      ensures !loading && fileName == old(fileName) && dragging == old(dragging)
      ensures reply.Uploaded? ==> handed == Some(reply.data) && progress == 100 && error == old(error)
      ensures reply.Failed? ==> handed.None? && error == Some(reply.error) && progress == 0
      ensures reply.Thrown? ==> handed.None? && error == old(error) && progress == old(progress)
      ensures strayRamps == old(strayRamps) + (if reply.Thrown? then 1 else 0)
      ensures Valid()
    {
      match reply {
        case Uploaded(data) =>
          progress := 100;
          handed := Some(data);
        case Failed(message) =>
          error := Some(message);
          progress := 0;
          handed := None;
        case Thrown =>
          handed := None;
          strayRamps := strayRamps + 1;
      }
      loading := false;
    }

    /** The timer set when the upload settles empties the bar. */
    method Settle()
      requires Valid()
      modifies this
      ensures progress == 0
      ensures loading == old(loading) && error == old(error) && fileName == old(fileName) && dragging == old(dragging)
      ensures strayRamps == old(strayRamps) && Valid()
    {
      progress := 0;
    }

    method DragOver()
      modifies this
      ensures dragging == (old(dragging) || !(disabled || loading))
      ensures progress == old(progress) && loading == old(loading) && error == old(error) && fileName == old(fileName)
      ensures strayRamps == old(strayRamps)
    {
      if !(disabled || loading) {
        dragging := true;
      }
    }

    method DragLeave()
      modifies this
      ensures !dragging
      ensures progress == old(progress) && loading == old(loading) && error == old(error) && fileName == old(fileName)
      ensures strayRamps == old(strayRamps)
    {
      dragging := false;
    }

    /** `onDrop`: ignored while disabled or busy; otherwise the first
        dropped file, if any, is started. */
    method Drop(file: Option<FileInfo>) returns (started: bool)
      requires Valid()
      modifies this
      ensures disabled || old(loading) ==> (!started && dragging == old(dragging) && progress == old(progress)
        && loading == old(loading) && error == old(error) && fileName == old(fileName))
      ensures !(disabled || old(loading)) ==> !dragging
      ensures started <==> !(disabled || old(loading)) && file.Some? && Validate(file.value, accept, maxSizeMb).None?
      ensures strayRamps == old(strayRamps) && Valid()
    {
      started := false;
      if disabled || loading {
        return;
      }
      dragging := false;
      if file.Some? {
        started := Start(file.value);
      }
    }

    /** The file input's change: the input is disabled while disabled or
        busy; otherwise the first chosen file, if any, is started. */
    method Choose(file: Option<FileInfo>) returns (started: bool)
      requires Valid()
      modifies this
      ensures disabled || old(loading) ==> (!started && progress == old(progress)
        && loading == old(loading) && error == old(error) && fileName == old(fileName))
      ensures started <==> !(disabled || old(loading)) && file.Some? && Validate(file.value, accept, maxSizeMb).None?
      ensures dragging == old(dragging) && strayRamps == old(strayRamps) && Valid()
    {
      started := false;
      if disabled || loading {
        return;
      }
      if file.Some? {
        started := Start(file.value);
      }
    }
  }

  /** An upload that throws leaves the bar on screen: after the throw and
      the settle timer, the stray ramp's next step lifts the bar from 0
      again, while the control is idle. */
  method ThrownUploadKeepsBar(c: Control, file: FileInfo)
    requires c.Valid() && !c.loading
    requires Validate(file, c.accept, c.maxSizeMb).None?
    modifies c
    ensures !c.loading && c.strayRamps == old(c.strayRamps) + 1
    ensures c.progress == RampStep(0) && c.progress > 0 && c.BarShown()
  {
    var started := c.Start(file);
    var handed := c.Finish<bool>(Thrown);
    c.Settle();
    c.Tick();
  }
}
