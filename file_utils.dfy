/** Path strings for the images the app saves under its private files directory.
    The timestamp (System.currentTimeMillis in the app) and the files directory
    (context.filesDir) are parameters. */
module FileUtils {

  const MASKED_IMAGE_PREFIX: string := "masked_palm_"
  const PROCESSED_IMAGE_PREFIX: string := "processed_"
  /** The sub-directory both generators place their files in, with its slashes. */
  const PROCESSED_DATA_DIR: string := "/processed_data/"
  const PNG_SUFFIX: string := ".png"

  /** String.lastIndexOf for a one-character needle: the position of the last
      occurrence of c in s, or -1 when c does not occur. */
  function LastIndexOf(s: string, c: char): (r: int)
    ensures -1 <= r < |s|
    ensures r >= 0 ==> s[r] == c
    ensures forall k :: r < k < |s| ==> s[k] != c
  {
    if |s| == 0 then -1
    else if s[|s| - 1] == c then |s| - 1
    else LastIndexOf(s[..|s| - 1], c)
  }

  /** getFileNameFromPath: everything after the last '/'. */
  function FileNameFromPath(path: string): (name: string)
    ensures |name| <= |path| && name == path[|path| - |name|..]
  {
    path[LastIndexOf(path, '/') + 1..]
  }

  /** Decimal digits of a non-negative number, most significant first. */
  function Digits(n: nat): (r: string)
    ensures |r| > 0
    ensures forall k :: 0 <= k < |r| ==> '0' <= r[k] <= '9'
  {
    if n < 10 then [DigitChar(n)] else Digits(n / 10) + [DigitChar(n % 10)]
  }

  function DigitChar(d: nat): (c: char)
    requires d < 10
    ensures '0' <= c <= '9'
  {
    "0123456789"[d]
  }

  /** Long.toString: decimal, with a leading '-' for negative values. */
  function LongToString(n: int): (r: string)
    ensures |r| > 0
    ensures r[0] == '-' <==> n < 0
    ensures n >= 0 ==> '0' <= r[0] <= '9'
    ensures forall k :: 0 < k < |r| ==> '0' <= r[k] <= '9'
  {
    if n < 0 then "-" + Digits(-n) else Digits(n)
  }

  /** generateMaskedImagePath with filesDir and the timestamp supplied; the path lies under the processed-data directory. */
  function MaskedImagePath(filesDir: string, timestamp: int): (path: string)
    ensures |path| > |filesDir| + |PROCESSED_DATA_DIR|
    ensures path[..|filesDir| + |PROCESSED_DATA_DIR|] == filesDir + PROCESSED_DATA_DIR
  {
    filesDir + PROCESSED_DATA_DIR + MASKED_IMAGE_PREFIX + LongToString(timestamp) + PNG_SUFFIX
  }

  /** generateProcessedImagePath with filesDir and the timestamp supplied; the path lies under the processed-data directory. */
  function ProcessedImagePath(filesDir: string, timestamp: int): (path: string)
    ensures |path| > |filesDir| + |PROCESSED_DATA_DIR|
    ensures path[..|filesDir| + |PROCESSED_DATA_DIR|] == filesDir + PROCESSED_DATA_DIR
  {
    filesDir + PROCESSED_DATA_DIR + PROCESSED_IMAGE_PREFIX + LongToString(timestamp) + PNG_SUFFIX
  }

  /** The file name a generator produces for a given prefix and timestamp. */
  function ImageFileName(prefix: string, timestamp: int): string
  {
    prefix + LongToString(timestamp) + PNG_SUFFIX
  }

  // ---------------------------------------------------------------------------
  // Properties of FileNameFromPath

  /** The file name never contains a '/'. */
  lemma FileNameHasNoSlash(path: string)
    ensures '/' !in FileNameFromPath(path)
  {
    NoneAfter(path, LastIndexOf(path, '/'), '/');
  }

  /** A suffix after position i holds no c when no position after i does. */
  lemma NoneAfter(s: string, i: int, c: char)
    requires -1 <= i < |s|
    requires forall k :: i < k < |s| ==> s[k] != c
    ensures c !in s[i + 1..]
  {
    var rest := s[i + 1..];
    forall k | 0 <= k < |rest| ensures rest[k] != c {
      assert rest[k] == s[i + 1 + k];
    }
  }

  /** A path without '/' is its own file name, because lastIndexOf yields -1. */
  lemma {:induction false} FileNameOfPlainName(path: string)
    requires '/' !in path
    ensures FileNameFromPath(path) == path
  {
    assert LastIndexOf(path, '/') == -1;
  }

  /** The path is the file name with a directory part in front of it, and the
      directory part is empty or ends in '/'. */
  lemma {:induction false} PathSplitsAtFileName(path: string)
    ensures var name := FileNameFromPath(path);
            var dir := path[..|path| - |name|];
            |name| <= |path| && path == dir + name && (dir == [] || dir[|dir| - 1] == '/')
  {
    var i := LastIndexOf(path, '/');
    var name := path[i + 1..];
    var dir := path[..i + 1];
    assert FileNameFromPath(path) == name;
    assert |path| - |name| == i + 1;
    assert path == dir + name;
    assert i >= 0 ==> dir[|dir| - 1] == path[i];
  }

  /** Taking the file name twice changes nothing. */
  lemma FileNameIdempotent(path: string)
    ensures FileNameFromPath(FileNameFromPath(path)) == FileNameFromPath(path)
  {
    FileNameHasNoSlash(path);
    FileNameOfPlainName(FileNameFromPath(path));
  }

  /** The last c of a + [c] + b is the one between them when b holds no c. */
  lemma {:induction false} LastIndexOfAfterSeparator(a: string, c: char, b: string)
    requires c !in b
    ensures LastIndexOf(a + [c] + b, c) == |a|
  {
    if b == [] {
      assert a + [c] + b == a + [c];
    } else {
      var s := a + [c] + b;
      assert s[|s| - 1] == b[|b| - 1];
      assert s[..|s| - 1] == a + [c] + b[..|b| - 1];
      LastIndexOfAfterSeparator(a, c, b[..|b| - 1]);
    }
  }

  lemma LongToStringHasNoSlash(n: int)
    ensures '/' !in LongToString(n)
  {
  }

  /** The file name a generated path yields is prefix + timestamp + ".png",
      whatever the files directory is. */
  lemma GeneratedPathRoundTrip(filesDir: string, prefix: string, timestamp: int)
    requires '/' !in prefix
    ensures FileNameFromPath(filesDir + PROCESSED_DATA_DIR + prefix + LongToString(timestamp) + PNG_SUFFIX)
         == ImageFileName(prefix, timestamp)
  {
    var name := ImageFileName(prefix, timestamp);
    var a := filesDir + "/processed_data";
    LongToStringHasNoSlash(timestamp);
    assert '/' !in name by {
      forall k | 0 <= k < |name| ensures name[k] != '/' {
        if k < |prefix| {
          assert name[k] == prefix[k];
        } else if k < |prefix| + |LongToString(timestamp)| {
          assert name[k] == LongToString(timestamp)[k - |prefix|];
        } else {
          assert name[k] == PNG_SUFFIX[k - |prefix| - |LongToString(timestamp)|];
        }
      }
    }
    assert filesDir + PROCESSED_DATA_DIR + prefix + LongToString(timestamp) + PNG_SUFFIX == a + ['/'] + name;
    LastIndexOfAfterSeparator(a, '/', name);
    assert (a + ['/'] + name)[|a| + 1..] == name;
  }

  /** The name the masked-image saver is given (PalmModel.createMaskedBitmap
      passes getFileNameFromPath of the generated path). */
  lemma MaskedImagePathRoundTrip(filesDir: string, timestamp: int)
    ensures FileNameFromPath(MaskedImagePath(filesDir, timestamp)) == ImageFileName(MASKED_IMAGE_PREFIX, timestamp)
  {
    GeneratedPathRoundTrip(filesDir, MASKED_IMAGE_PREFIX, timestamp);
  }

  lemma ProcessedImagePathRoundTrip(filesDir: string, timestamp: int)
    ensures FileNameFromPath(ProcessedImagePath(filesDir, timestamp)) == ImageFileName(PROCESSED_IMAGE_PREFIX, timestamp)
  {
    GeneratedPathRoundTrip(filesDir, PROCESSED_IMAGE_PREFIX, timestamp);
  }
}
