/**
 * Loading the coprocessor firmware named by the "necdsp" and "hitachidsp"
 * sections: file size checks, how the bytes become program and data
 * words, and the warnings raised along the way.
 *
 * The host's file system and the SHA-256 routine are parameters (`Host`).
 * `file::readm(n)` is taken to read n bytes most significant first and
 * `file::readl(n)` least significant first, as their nall names say; their
 * definitions are not part of this model.
 */
module Firmware {
  import opened Wrappers
  import opened Text
  import opened Descriptor

  type byte = x: int | 0 <= x < 256

  /** What the emulator asks of its host: a file by name, and the SHA-256 digest of some bytes. */
  datatype Host = Host(firmware: string -> Option<seq<byte>>, sha256: seq<byte> -> string)

  datatype NecRevision = UPD7725 | UPD96050

  function NecModelOf(content: string): Option<NecRevision> {
    if content == "uPD7725" then Some(UPD7725)
    else if content == "uPD96050" then Some(UPD96050)
    else None
  }

  /** Storage sizes of the two chips, in words. */
  const NecProgramCapacity: nat := 16384
  const NecDataCapacity: nat := 2048
  const HitachiDataCapacity: nat := 1024
  const HitachiFileSize: nat := 1024 * 3

  /** `promsize`: program words in the firmware file. */
  function ProgramWords(rev: NecRevision): (n: nat)
    ensures n <= NecProgramCapacity
  {
    if rev == UPD7725 then 2048 else 16384
  }

  /** `dromsize`: data words in the firmware file. */
  function DataWords(rev: NecRevision): (n: nat)
    ensures n <= NecDataCapacity
  {
    if rev == UPD7725 then 1024 else 2048
  }

  /** 24-bit program words followed by 16-bit data words. */
  function NecFileSize(rev: NecRevision): (n: nat)
    ensures n == ProgramWords(rev) * 3 + DataWords(rev) * 2
    ensures rev == UPD7725 ==> n == 8192
    ensures rev == UPD96050 ==> n == 53248
  {
    ProgramWords(rev) * 3 + DataWords(rev) * 2
  }

  function Pow256(w: nat): (p: nat)
    ensures p >= 1
  {
    if w == 0 then 1 else 256 * Pow256(w - 1)
  }

  /** `readm(w)` at `pos`: w bytes, most significant first. */
  function ReadMsb(b: seq<byte>, pos: nat, w: nat): (v: nat)
    requires pos + w <= |b|
    ensures v < Pow256(w)
  {
    if w == 0 then 0 else ReadMsb(b, pos, w - 1) * 256 + b[pos + w - 1]
  }

  /** `readl(w)` at `pos`: w bytes, least significant first. */
  function ReadLsb(b: seq<byte>, pos: nat, w: nat): (v: nat)
    requires pos + w <= |b|
    ensures v < Pow256(w)
    decreases w
  {
    if w == 0 then 0 else b[pos] + 256 * ReadLsb(b, pos + 1, w - 1)
  }

  /** The w bytes of v, most significant first. */
  function EncodeMsb(v: nat, w: nat): (r: seq<byte>)
    ensures |r| == w
  {
    if w == 0 then [] else EncodeMsb(v / 256, w - 1) + [v % 256]
  }

  /** The w bytes of v, least significant first. */
  function EncodeLsb(v: nat, w: nat): (r: seq<byte>)
    ensures |r| == w
  {
    if w == 0 then [] else [v % 256] + EncodeLsb(v / 256, w - 1)
  }

  /** A word read most significant first, written back the same way, is the bytes it came from. */
  lemma {:induction false} MsbRoundTrip(b: seq<byte>, pos: nat, w: nat)
    requires pos + w <= |b|
    ensures EncodeMsb(ReadMsb(b, pos, w), w) == b[pos..pos + w]
  {
    if w > 0 {
      MsbRoundTrip(b, pos, w - 1);
      var v := ReadMsb(b, pos, w);
      assert v / 256 == ReadMsb(b, pos, w - 1) && v % 256 == b[pos + w - 1];
      assert b[pos..pos + w] == b[pos..pos + w - 1] + [b[pos + w - 1]];
    }
  }

  /** A word read least significant first, written back the same way, is the bytes it came from. */
  lemma {:induction false} LsbRoundTrip(b: seq<byte>, pos: nat, w: nat)
    requires pos + w <= |b|
    ensures EncodeLsb(ReadLsb(b, pos, w), w) == b[pos..pos + w]
    decreases w
  {
    if w > 0 {
      LsbRoundTrip(b, pos + 1, w - 1);
      var v := ReadLsb(b, pos, w);
      assert v % 256 == b[pos] && v / 256 == ReadLsb(b, pos + 1, w - 1);
      assert b[pos..pos + w] == [b[pos]] + b[pos + 1..pos + w];
    }
  }

  /** What opening the firmware file found. */
  datatype Load = Missing | WrongSize(got: nat) | Loaded(bytes: seq<byte>)

  function Classify(file: Option<seq<byte>>, expected: nat): (r: Load)
    ensures file.None? <==> r.Missing?
    ensures r.WrongSize? ==> file.Some? && r.got == |file.value| && r.got != expected
    ensures r.Loaded? <==> file.Some? && |file.value| == expected
    ensures r.Loaded? ==> r.bytes == file.value
  {
    match file
    case None => Missing
    case Some(b) => if |b| != expected then WrongSize(|b|) else Loaded(b)
  }

  /** Word n of the NEC program ROM: read from the file when loaded and n is within `promsize`, else 0. */
  function NecProgramWord(load: Load, rev: NecRevision, n: nat): (v: nat)
    requires load.Loaded? ==> |load.bytes| == NecFileSize(rev)
    ensures v < Pow256(3)
  {
    if load.Loaded? && n < ProgramWords(rev) then ReadMsb(load.bytes, 3 * n, 3) else 0
  }

  /** Word n of the NEC data ROM: read after the program words when loaded and n is within `dromsize`, else 0. */
  function NecDataWord(load: Load, rev: NecRevision, n: nat): (v: nat)
    requires load.Loaded? ==> |load.bytes| == NecFileSize(rev)
    ensures v < Pow256(2)
  {
    if load.Loaded? && n < DataWords(rev) then ReadMsb(load.bytes, 3 * ProgramWords(rev) + 2 * n, 2) else 0
  }

  /** Word n of the Hitachi data ROM: read least significant first when loaded, else 0. */
  function HitachiDataWord(load: Load, n: nat): (v: nat)
    requires load.Loaded? ==> |load.bytes| == HitachiFileSize
    ensures v < Pow256(3)
  {
    if load.Loaded? && n < HitachiDataCapacity then ReadLsb(load.bytes, 3 * n, 3) else 0
  }

  /** The bytes of a run of words of width w, concatenated. */
  function EncodeWordsMsb(words: seq<nat>, w: nat): (r: seq<byte>)
    ensures |r| == w * |words|
    decreases |words|
  {
    if words == [] then [] else EncodeMsb(words[0], w) + EncodeWordsMsb(words[1..], w)
  }

  function EncodeWordsLsb(words: seq<nat>, w: nat): (r: seq<byte>)
    ensures |r| == w * |words|
    decreases |words|
  {
    if words == [] then [] else EncodeLsb(words[0], w) + EncodeWordsLsb(words[1..], w)
  }

  /** `words` are what successive `readm(w)` calls return from `pos` on. */
  ghost predicate ReadsMsb(b: seq<byte>, pos: nat, w: nat, words: seq<nat>)
    decreases |words|
  {
    words == [] || (pos + w <= |b| && words[0] == ReadMsb(b, pos, w) && ReadsMsb(b, pos + w, w, words[1..]))
  }

  /** `words` are what successive `readl(w)` calls return from `pos` on. */
  ghost predicate ReadsLsb(b: seq<byte>, pos: nat, w: nat, words: seq<nat>)
    decreases |words|
  {
    words == [] || (pos + w <= |b| && words[0] == ReadLsb(b, pos, w) && ReadsLsb(b, pos + w, w, words[1..]))
  }

  /** The image of the NEC program ROM. */
  function NecProgramImage(load: Load, rev: NecRevision): (img: seq<nat>)
    requires load.Loaded? ==> |load.bytes| == NecFileSize(rev)
    ensures |img| == NecProgramCapacity
  {
    seq(NecProgramCapacity, n requires 0 <= n => NecProgramWord(load, rev, n))
  }

  /** The image of the NEC data ROM. */
  function NecDataImage(load: Load, rev: NecRevision): (img: seq<nat>)
    requires load.Loaded? ==> |load.bytes| == NecFileSize(rev)
    ensures |img| == NecDataCapacity
  {
    seq(NecDataCapacity, n requires 0 <= n => NecDataWord(load, rev, n))
  }

  /** The image of the Hitachi data ROM. */
  function HitachiDataImage(load: Load): (img: seq<nat>)
    requires load.Loaded? ==> |load.bytes| == HitachiFileSize
    ensures |img| == HitachiDataCapacity
  {
    seq(HitachiDataCapacity, n requires 0 <= n => HitachiDataWord(load, n))
  }

  /** Words read most significant first, written back the same way, are the bytes they came from. */
  lemma {:induction false} MsbWordsRoundTrip(b: seq<byte>, pos: nat, w: nat, words: seq<nat>)
    requires pos <= |b| && ReadsMsb(b, pos, w, words)
    ensures pos + |EncodeWordsMsb(words, w)| <= |b|
    ensures EncodeWordsMsb(words, w) == b[pos..pos + |EncodeWordsMsb(words, w)|]
    decreases |words|
  {
    if words != [] {
      MsbWordsRoundTrip(b, pos + w, w, words[1..]);
      MsbRoundTrip(b, pos, w);
      var rest := EncodeWordsMsb(words[1..], w);
      assert EncodeWordsMsb(words, w) == EncodeMsb(words[0], w) + rest;
      assert b[pos..pos + w + |rest|] == b[pos..pos + w] + b[pos + w..pos + w + |rest|];
    }
  }

  /** Words read least significant first, written back the same way, are the bytes they came from. */
  lemma {:induction false} LsbWordsRoundTrip(b: seq<byte>, pos: nat, w: nat, words: seq<nat>)
    requires pos <= |b| && ReadsLsb(b, pos, w, words)
    ensures pos + |EncodeWordsLsb(words, w)| <= |b|
    ensures EncodeWordsLsb(words, w) == b[pos..pos + |EncodeWordsLsb(words, w)|]
    decreases |words|
  {
    if words != [] {
      LsbWordsRoundTrip(b, pos + w, w, words[1..]);
      LsbRoundTrip(b, pos, w);
      var rest := EncodeWordsLsb(words[1..], w);
      assert EncodeWordsLsb(words, w) == EncodeLsb(words[0], w) + rest;
      assert b[pos..pos + w + |rest|] == b[pos..pos + w] + b[pos + w..pos + w + |rest|];
    }
  }

  /** The NEC program words from `start` on are successive 3-byte reads. */
  lemma {:induction false} NecProgramReads(load: Load, rev: NecRevision, start: nat)
    requires load.Loaded? && |load.bytes| == NecFileSize(rev) && start <= ProgramWords(rev)
    ensures ReadsMsb(load.bytes, 3 * start, 3, NecProgramImage(load, rev)[start..ProgramWords(rev)])
    decreases ProgramWords(rev) - start
  {
    var words := NecProgramImage(load, rev)[start..ProgramWords(rev)];
    if start < ProgramWords(rev) {
      NecProgramReads(load, rev, start + 1);
      assert words[0] == NecProgramWord(load, rev, start);
      assert words[1..] == NecProgramImage(load, rev)[start + 1..ProgramWords(rev)];
    }
  }

  /** The NEC data words from `start` on are successive 2-byte reads after the program words. */
  lemma {:induction false} NecDataReads(load: Load, rev: NecRevision, start: nat)
    requires load.Loaded? && |load.bytes| == NecFileSize(rev) && start <= DataWords(rev)
    ensures ReadsMsb(load.bytes, 3 * ProgramWords(rev) + 2 * start, 2, NecDataImage(load, rev)[start..DataWords(rev)])
    decreases DataWords(rev) - start
  {
    var words := NecDataImage(load, rev)[start..DataWords(rev)];
    if start < DataWords(rev) {
      NecDataReads(load, rev, start + 1);
      assert words[0] == NecDataWord(load, rev, start);
      assert words[1..] == NecDataImage(load, rev)[start + 1..DataWords(rev)];
    }
  }

  /** The Hitachi data words from `start` on are successive 3-byte reads, least significant first. */
  lemma {:induction false} HitachiDataReads(load: Load, start: nat)
    requires load.Loaded? && |load.bytes| == HitachiFileSize && start <= HitachiDataCapacity
    ensures ReadsLsb(load.bytes, 3 * start, 3, HitachiDataImage(load)[start..])
    decreases HitachiDataCapacity - start
  {
    var words := HitachiDataImage(load)[start..];
    if start < HitachiDataCapacity {
      HitachiDataReads(load, start + 1);
      assert words[0] == HitachiDataWord(load, start);
      assert words[1..] == HitachiDataImage(load)[start + 1..];
    }
  }

  /**
   * A loaded NEC file is entirely used: its `promsize` program words
   * followed by its `dromsize` data words, written back, are the file.
   */
  lemma NecImageRoundTrip(load: Load, rev: NecRevision)
    requires load.Loaded? && |load.bytes| == NecFileSize(rev)
    ensures EncodeWordsMsb(NecProgramImage(load, rev)[..ProgramWords(rev)], 3)
          + EncodeWordsMsb(NecDataImage(load, rev)[..DataWords(rev)], 2) == load.bytes
  {
    var b := load.bytes;
    var p, d := ProgramWords(rev), DataWords(rev);
    NecProgramReads(load, rev, 0);
    assert NecProgramImage(load, rev)[0..p] == NecProgramImage(load, rev)[..p];
    MsbWordsRoundTrip(b, 0, 3, NecProgramImage(load, rev)[..p]);
    NecDataReads(load, rev, 0);
    assert NecDataImage(load, rev)[0..d] == NecDataImage(load, rev)[..d];
    MsbWordsRoundTrip(b, 3 * p, 2, NecDataImage(load, rev)[..d]);
    assert b[0..3 * p] + b[3 * p..3 * p + 2 * d] == b;
  }

  /** A loaded Hitachi file is entirely used: its 1024 data words, written back, are the file. */
  lemma HitachiImageRoundTrip(load: Load)
    requires load.Loaded? && |load.bytes| == HitachiFileSize
    ensures EncodeWordsLsb(HitachiDataImage(load), 3) == load.bytes
  {
    HitachiDataReads(load, 0);
    assert HitachiDataImage(load)[0..] == HitachiDataImage(load);
    LsbWordsRoundTrip(load.bytes, 0, 3, HitachiDataImage(load));
    assert load.bytes[0..3 * HitachiDataCapacity] == load.bytes;
  }

  /** The storage is cleared before loading: without a file of the right size every word is 0. */
  lemma ImagesZeroUnlessLoaded(load: Load, rev: NecRevision)
    requires !load.Loaded?
    ensures forall n :: 0 <= n < NecProgramCapacity ==> NecProgramImage(load, rev)[n] == 0
    ensures forall n :: 0 <= n < NecDataCapacity ==> NecDataImage(load, rev)[n] == 0
    ensures forall n :: 0 <= n < HitachiDataCapacity ==> HitachiDataImage(load)[n] == 0
  {
  }

  // ------------------------------------------------------------------
  // Warnings
  // ------------------------------------------------------------------

  datatype Chip = NecChip | HitachiChip

  /** Why a firmware file was not used, or was used but does not match its declared digest. */
  datatype Reason = MissingFile | WrongFileSize(reported: Option<nat>) | DigestMismatch

  /** One warning message: the chip it names, the firmware file name and the reason. */
  datatype Diagnostic = Diagnostic(chip: Chip, firmware: string, reason: Reason)

  /**
   * The digest is checked only on a file that was loaded, and only when the
   * descriptor gives one; the comparison is of the digest texts.
   */
  predicate DigestFails(host: Host, load: Load, sha256: string) {
    load.Loaded? && sha256 != "" && sha256 != host.sha256(load.bytes)
  }

  /** The warnings of one firmware load, with the digest warning naming `digestChip`. */
  function LoadDiagnostics(chip: Chip, digestChip: Chip, firmware: string, load: Load, reportSize: bool,
                           host: Host, sha256: string): seq<Diagnostic>
  {
    match load
    case Missing => [Diagnostic(chip, firmware, MissingFile)]
    case WrongSize(got) => [Diagnostic(chip, firmware, WrongFileSize(if reportSize then Some(got) else None))]
    case Loaded(_) => if DigestFails(host, load, sha256) then [Diagnostic(digestChip, firmware, DigestMismatch)] else []
  }

  /** The NEC DSP warnings as the source writes them: its digest warning names the Hitachi DSP. */
  function NecDiagnosticsAsWritten(host: Host, firmware: string, load: Load, sha256: string): seq<Diagnostic> {
    LoadDiagnostics(NecChip, HitachiChip, firmware, load, false, host, sha256)
  }

  /** The NEC DSP warnings as intended: every one names the NEC DSP. */
  function NecDiagnostics(host: Host, firmware: string, load: Load, sha256: string): (r: seq<Diagnostic>)
    ensures |r| <= 1
    ensures forall k :: 0 <= k < |r| ==> r[k].chip == NecChip && r[k].firmware == firmware
    ensures r == [] <==> load.Loaded? && !DigestFails(host, load, sha256)
    ensures load.Missing? ==> r == [Diagnostic(NecChip, firmware, MissingFile)]
    ensures load.WrongSize? ==> r == [Diagnostic(NecChip, firmware, WrongFileSize(None))]
    ensures DigestFails(host, load, sha256) ==> r == [Diagnostic(NecChip, firmware, DigestMismatch)]
  {
    LoadDiagnostics(NecChip, NecChip, firmware, load, false, host, sha256)
  }

  function HitachiDiagnostics(host: Host, firmware: string, load: Load, sha256: string): (r: seq<Diagnostic>)
    ensures |r| <= 1
    ensures forall k :: 0 <= k < |r| ==> r[k].chip == HitachiChip && r[k].firmware == firmware
    ensures r == [] <==> load.Loaded? && !DigestFails(host, load, sha256)
    ensures load.Missing? ==> r == [Diagnostic(HitachiChip, firmware, MissingFile)]
    ensures load.WrongSize? ==> r == [Diagnostic(HitachiChip, firmware, WrongFileSize(Some(load.got)))]
    ensures DigestFails(host, load, sha256) ==> r == [Diagnostic(HitachiChip, firmware, DigestMismatch)]
  {
    LoadDiagnostics(HitachiChip, HitachiChip, firmware, load, true, host, sha256)
  }

  /** A NEC firmware file whose digest does not match is reported as Hitachi DSP firmware. */
  lemma NecDigestWarningNamesHitachi(host: Host, firmware: string, load: Load, sha256: string)
    requires DigestFails(host, load, sha256)
    ensures NecDiagnosticsAsWritten(host, firmware, load, sha256) == [Diagnostic(HitachiChip, firmware, DigestMismatch)]
    ensures NecDiagnostics(host, firmware, load, sha256) == [Diagnostic(NecChip, firmware, DigestMismatch)]
  {
  }

  /** Apart from a failing digest check, the NEC warnings as written and as intended are the same. */
  lemma NecDiagnosticsDifferOnlyOnDigest(host: Host, firmware: string, load: Load, sha256: string)
    ensures NecDiagnosticsAsWritten(host, firmware, load, sha256)
         == if DigestFails(host, load, sha256) then [Diagnostic(HitachiChip, firmware, DigestMismatch)]
            else NecDiagnostics(host, firmware, load, sha256)
  {
  }

  /** Concrete inputs on which the as-written warning names the wrong chip. */
  lemma NecDigestWarningCounterexample()
    ensures var host := Host(_ => None, _ => "0");
      var load := Loaded(seq(8192, _ => 0));
      NecDiagnosticsAsWritten(host, "dsp1.bin", load, "1")[0].chip == HitachiChip
  {
  }

  // ------------------------------------------------------------------
  // Configuration read from the section's attributes
  // ------------------------------------------------------------------

  /** The NEC DSP's settings from the "necdsp" element's attributes. */
  datatype NecConfig = NecConfig(revision: NecRevision, frequency: u32, firmware: string, sha256: string)

  function NecConfigOf(attrs: seq<Attribute>): NecConfig {
    NecConfig(Choose(attrs, "model", NecModelOf, UPD7725),
              Choose<u32>(attrs, "frequency", AsUnsigned, 8000000),
              Choose(attrs, "firmware", AsText, ""),
              Choose(attrs, "sha256", AsText, ""))
  }

  /** The Hitachi DSP's settings from the "hitachidsp" element's attributes. */
  datatype HitachiConfig = HitachiConfig(frequency: u32, firmware: string, sha256: string)

  function HitachiConfigOf(attrs: seq<Attribute>): HitachiConfig {
    HitachiConfig(Choose<u32>(attrs, "frequency", AsUnsigned, 20000000),
                  Choose(attrs, "firmware", AsText, ""),
                  Choose(attrs, "sha256", AsText, ""))
  }
}
