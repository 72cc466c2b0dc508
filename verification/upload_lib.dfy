/**
 * Helpers for file uploads (lib/upload.ts): byte-size rendering, unique file names,
 * the size and type checks, chunk sizes and the simulated storage URL.
 * The clock and the random string of `generateUniqueFilename` are parameters.
 */
module UploadLib {
  import opened JsText

  /** The parts of a browser `File` the code reads. */
  datatype FileInfo = FileInfo(name: string, size: nat, mediaType: string)

  const KiB: nat := 1024
  const MiB: nat := 1024 * 1024
  const GiB: nat := 1024 * 1024 * 1024

  // ---------------------------------------------------------------------------
  // formatBytes

  function Pow1024(i: nat): (r: nat)
    ensures r >= 1
  {
    if i == 0 then 1 else 1024 * Pow1024(i - 1)
  }

  function Pow10(d: nat): (r: nat)
    ensures r >= 1
  {
    if d == 0 then 1 else 10 * Pow10(d - 1)
  }

  /** `Math.floor(Math.log(bytes) / Math.log(1024))` computed exactly: the largest `i`
      with 1024^i <= bytes. */
  function UnitIndex(bytes: nat): (i: nat)
    requires bytes >= 1
    ensures Pow1024(i) <= bytes < Pow1024(i + 1)
  {
    if bytes < 1024 then 0
    else
      var j := UnitIndex(bytes / 1024);
      assert 1024 * Pow1024(j) <= 1024 * (bytes / 1024) <= bytes;
      assert bytes < 1024 * (bytes / 1024 + 1) <= 1024 * Pow1024(j + 1);
      j + 1
  }

  const SizeNames: seq<string> := ["Bytes", "KB", "MB", "GB", "TB"]

  /** `sizes[i]`, which is `undefined` past the last unit name. */
  function UnitName(i: nat): string {
    if i < |SizeNames| then SizeNames[i] else "undefined"
  }

  /** The digits `toFixed(dm)` produces for bytes / 1024^i, as one integer: the value
      scaled by 10^dm and rounded to the nearest integer, halves upwards. */
  function RoundedScaled(bytes: nat, i: nat, dm: nat): nat {
    var p := Pow1024(i);
    Div(2 * bytes * Pow10(dm) + p, 2 * p)
  }

  function Div(x: nat, d: nat): nat
    requires d >= 1
  {
    x / d
  }

  function Mod(x: nat, d: nat): nat
    requires d >= 1
  {
    x % d
  }

  /** The lowest `k` decimal digits of `v`, with leading zeros. */
  function LowDigits(v: nat, k: nat): (r: string)
    ensures |r| == k && AllDigits(r)
  {
    if k == 0 then "" else LowDigits(v / 10, k - 1) + [DigitChar(v % 10)]
  }

  function StripTrailingZeros(s: string): (r: string)
    ensures r <= s
    ensures r == "" || r[|r| - 1] != '0'
    ensures forall k :: |r| <= k < |s| ==> s[k] == '0'
  {
    if |s| > 0 && s[|s| - 1] == '0' then StripTrailingZeros(s[..|s| - 1]) else s
  }

  /** `String(Number.parseFloat(t))` where `t` is the fixed-point text of n / 10^dm:
      trailing zeros of the fraction, and a bare point, disappear. */
  function FixedText(n: nat, dm: nat): string {
    var p := Pow10(dm);
    var whole := NatToString(Div(n, p));
    var frac := StripTrailingZeros(LowDigits(Mod(n, p), dm));
    if frac == "" then whole else whole + "." + frac
  }

  /** `formatBytes(bytes, decimals)`. `toFixed` throws for more than 100 digits, so callers
      must keep `decimals` at most 100. */
  function FormatBytes(bytes: nat, decimals: int): string
    requires decimals <= 100
  {
    if bytes == 0 then "0 Bytes"
    else
      var dm: nat := if decimals < 0 then 0 else decimals;
      var i := UnitIndex(bytes);
      FixedText(RoundedScaled(bytes, i, dm), dm) + " " + UnitName(i)
  }

  lemma {:induction false} Pow1024Grows(i: nat, j: nat)
    requires i < j
    ensures Pow1024(i + 1) <= Pow1024(j)
    decreases j
  {
    if i + 1 < j {
      Pow1024Grows(i, j - 1);
    }
  }

  /** The unit index is the only `i` bracketing the byte count. */
  lemma UnitIndexUnique(bytes: nat, i: nat)
    requires bytes >= 1
    requires Pow1024(i) <= bytes < Pow1024(i + 1)
    ensures UnitIndex(bytes) == i
  {
    var j := UnitIndex(bytes);
    if j < i {
      Pow1024Grows(j, i);
    } else if i < j {
      Pow1024Grows(i, j);
    }
  }

  lemma {:induction false} LowDigitsOfZero(k: nat)
    ensures StripTrailingZeros(LowDigits(0, k)) == ""
  {
    if k > 0 {
      var s := LowDigits(0, k);
      var t := LowDigits(0, k - 1);
      assert s == t + [DigitChar(0)];
      assert s[|s| - 1] == '0';
      assert s[..|s| - 1] == t;
      LowDigitsOfZero(k - 1);
    }
  }

  /** A whole number m of units (1 <= m < 1024) is rendered as `m` and the unit's name,
      whatever the number of decimals: 3 GiB reads "3 GB", 500 MiB "500 MB". */
  lemma WholeUnits(m: nat, i: nat, decimals: int)
    requires 1 <= m < 1024 && decimals <= 100
    ensures FormatBytes(m * Pow1024(i), decimals) == NatToString(m) + " " + UnitName(i)
  {
    var dm: nat := if decimals < 0 then 0 else decimals;
    UnitIndexOfWhole(m, i);
    RoundedWhole(m, i, dm);
    FixedWhole(m, dm);
  }

  lemma UnitIndexOfWhole(m: nat, i: nat)
    requires 1 <= m < 1024
    ensures m * Pow1024(i) >= 1 && UnitIndex(m * Pow1024(i)) == i
  {
    var p := Pow1024(i);
    MulLess(m, 1024, p);
    MulAtLeast(p, m);
    assert p * m == m * p;
    UnitIndexUnique(m * p, i);
  }

  lemma RoundedWhole(m: nat, i: nat, dm: nat)
    ensures RoundedScaled(m * Pow1024(i), i, dm) == m * Pow10(dm)
  {
    var p, q := Pow1024(i), Pow10(dm);
    var mq := m * q;
    assert 2 * (m * p) * q == (2 * p) * mq by {
      MulAssoc(m, p, q);
    }
    DivPlusSmall(2 * p, mq, p);
  }

  lemma FixedWhole(m: nat, dm: nat)
    ensures FixedText(m * Pow10(dm), dm) == NatToString(m)
  {
    var q := Pow10(dm);
    var n := m * q;
    DivPlusSmall(q, m, 0);
    assert n == q * m + 0;
    assert n / q == m;
    assert n % q == 0;
    LowDigitsOfZero(dm);
    assert StripTrailingZeros(LowDigits(n % q, dm)) == "";
  }

  lemma MulAssoc(m: nat, p: nat, q: nat)
    ensures 2 * (m * p) * q == (2 * p) * (m * q)
  {
  }

  lemma MulLess(a: nat, b: nat, p: nat)
    requires a < b && p >= 1
    ensures a * p < b * p
  {
  }

  lemma DivPlusSmall(d: nat, k: nat, r: nat)
    requires d >= 1 && r < d
    ensures (d * k + r) / d == k && (d * k + r) % d == r
  {
    var x := d * k + r;
    var q, m := x / d, x % d;
    assert d * q + m == d * k + r;
    if q > k {
      assert d * (q - k) == d * q - d * k;
      MulAtLeast(d, q - k);
    } else if q < k {
      assert d * (k - q) == d * k - d * q;
      MulAtLeast(d, k - q);
    }
  }

  lemma MulAtLeast(d: nat, e: nat)
    requires e >= 1
    ensures d * e >= d
  {
  }

  /** The movie upload limit reads "3 GB". */
  lemma FormatThreeGiB()
    ensures FormatBytes(3 * GiB, 2) == "3 GB"
  {
    assert Pow1024(3) == GiB by {
      assert Pow1024(1) == 1024;
      assert Pow1024(2) == MiB;
    }
    WholeUnits(3, 3, 2);
  }

  /** The trailer upload limit reads "500 MB". */
  lemma FormatFiveHundredMiB()
    ensures FormatBytes(500 * MiB, 2) == "500 MB"
  {
    assert Pow1024(2) == MiB by {
      assert Pow1024(1) == 1024;
    }
    WholeUnits(500, 2, 2);
    assert NatToString(500) == "500" by {
      assert NatToString(5) == "5";
      assert NatToString(50) == "50";
    }
  }

  /** A limit of 1000 bytes reads "1000 Bytes"; zero reads "0 Bytes". */
  lemma FormatThousandBytes()
    ensures FormatBytes(1000, 2) == "1000 Bytes"
    ensures FormatBytes(0, 2) == "0 Bytes"
  {
    WholeUnits(1000, 0, 2);
    assert 1000 * Pow1024(0) == 1000;
    assert UnitName(0) == "Bytes";
    ThousandText();
  }

  lemma ThousandText()
    ensures NatToString(1000) == "1000"
  {
    assert NatToString(1) == "1";
    assert NatToString(10) == "10";
    assert NatToString(100) == "100";
  }

  // ---------------------------------------------------------------------------
  // generateUniqueFilename

  /** `generateUniqueFilename(originalFilename)` with `Date.now()` and the random base-36
      string passed in. */
  function GenerateUniqueFilename(originalFilename: string, timestamp: nat, random: string): (r: string)
    ensures StartsWith(r, NatToString(timestamp) + "-" + random + ".")
    ensures AfterLastDot(r) == AfterLastDot(originalFilename)
    ensures |r| == |NatToString(timestamp) + "-" + random| + 1 + |AfterLastDot(originalFilename)|
  {
    var prefix := NatToString(timestamp) + "-" + random;
    var ext := AfterLastDot(originalFilename);
    var r := prefix + "." + ext;
    LastDotBeforeSuffix(prefix, ext);
    r
  }

  lemma LastDotBeforeSuffix(prefix: string, ext: string)
    requires '.' !in ext
    ensures AfterLastDot(prefix + "." + ext) == ext
  {
    var s := prefix + "." + ext;
    assert s[|prefix|] == '.';
    var k := LastIndexOfChar(s, '.');
    assert k.Some?;
    assert forall j :: |prefix| < j < |s| ==> s[j] == ext[j - |prefix| - 1];
    assert k.value == |prefix|;
    assert s[|prefix| + 1..] == ext;
  }

  // ---------------------------------------------------------------------------
  // Checks, chunk size, simulated URL

  /** `validateFileType`: membership of the file's media type in the list. */
  function ValidateFileType(file: FileInfo, allowedTypes: seq<string>): bool {
    file.mediaType in allowedTypes
  }

  /** `validateFileSize`: the bound is inclusive. */
  function ValidateFileSize(file: FileInfo, maxSizeInBytes: nat): bool {
    file.size <= maxSizeInBytes
  }

  lemma EmptyTypeListRejectsAll(file: FileInfo)
    ensures !ValidateFileType(file, [])
  {
  }

  /** `calculateChunkSize`. */
  function CalculateChunkSize(fileSize: nat): (r: nat)
    ensures r == MiB || r == 2 * MiB || r == 5 * MiB
  {
    if fileSize > 1024 * 1024 * 1024 then 5 * 1024 * 1024
    else if fileSize > 100 * 1024 * 1024 then 2 * 1024 * 1024
    else 1 * 1024 * 1024
  }

  /** The chunk size never shrinks as the file grows, and both thresholds are strict. */
  lemma ChunkSizeMonotone(a: nat, b: nat)
    requires a <= b
    ensures CalculateChunkSize(a) <= CalculateChunkSize(b)
    ensures CalculateChunkSize(GiB) == 2 * MiB && CalculateChunkSize(GiB + 1) == 5 * MiB
    ensures CalculateChunkSize(100 * MiB) == MiB && CalculateChunkSize(100 * MiB + 1) == 2 * MiB
  {
  }

  datatype UploadKind = MovieKind | TrailerKind | ThumbnailKind

  function UploadDir(kind: UploadKind): string {
    match kind
    case MovieKind => "movies"
    case TrailerKind => "trailers"
    case ThumbnailKind => "thumbnails"
  }

  /** `createSimulatedUrl(type, filename)`. */
  function CreateSimulatedUrl(kind: UploadKind, filename: string): (url: string)
    ensures StartsWith(url, "/uploads/") && EndsWith(url, "/" + filename)
  {
    var url := "/uploads/" + UploadDir(kind) + "/" + filename;
    assert url[|url| - |filename| - 1..] == "/" + filename;
    url
  }

  lemma SimulatedUrlShape(kind: UploadKind, filename: string)
    ensures CreateSimulatedUrl(kind, filename) == "/uploads/" + (UploadDir(kind) + ("/" + filename))
  {
    var a, d, f := "/uploads/", UploadDir(kind), filename;
    assert (a + d) + "/" + f == a + (d + ("/" + f));
  }

  /** Different kinds never share a directory, so the URL tells the kind back. */
  lemma SimulatedUrlDirsDistinct(k1: UploadKind, k2: UploadKind, f1: string, f2: string)
    requires CreateSimulatedUrl(k1, f1) == CreateSimulatedUrl(k2, f2)
    ensures k1 == k2 && f1 == f2
  {
    SimulatedUrlShape(k1, f1);
    SimulatedUrlShape(k2, f2);
    var t1 := UploadDir(k1) + ("/" + f1);
    var t2 := UploadDir(k2) + ("/" + f2);
    assert t1 == CreateSimulatedUrl(k1, f1)[9..] == t2;
    assert t1[0] == UploadDir(k1)[0] && t1[1] == UploadDir(k1)[1];
    assert t2[0] == UploadDir(k2)[0] && t2[1] == UploadDir(k2)[1];
    DirsDiffer(k1, k2);
    assert t1[|UploadDir(k1)| + 1..] == f1;
  }

  /** The first two letters of a directory name tell the kind. */
  lemma DirsDiffer(k1: UploadKind, k2: UploadKind)
    requires UploadDir(k1)[0] == UploadDir(k2)[0] && UploadDir(k1)[1] == UploadDir(k2)[1]
    ensures k1 == k2
  {
  }
}
