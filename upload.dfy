/**
 * The name multer's disk storage gives an uploaded practice logo:
 * `${name}-${Date.now()}${ext}` where `ext = path.extname(originalname)` and
 * `name = path.basename(originalname, ext)`.  The clock reading is a parameter.
 *
 * `path.extname` and `path.basename` are Node's POSIX versions, written out
 * here for a single path component: the multipart parser hands multer the
 * client's file name with any directory part removed and with "." and ".."
 * replaced by nothing, so the original name never holds a separator.
 */
module Upload {
  import opened Text

  predicate IsSeparator(c: char) {
    c == '/' || c == '\\'
  }

  /** A file name as the multipart parser delivers it: one path component, never "." or "..". */
  predicate IsClientFileName(s: string) {
    (forall i :: 0 <= i < |s| ==> !IsSeparator(s[i])) && s != "." && s != ".."
  }

  /** Index of the last '.', or -1 when there is none. */
  function LastDot(s: string): (k: int)
    ensures -1 <= k < |s|
    ensures k >= 0 ==> s[k] == '.'
    ensures forall j :: k < j < |s| ==> s[j] != '.'
  {
    if s == [] then -1
    else if s[|s| - 1] == '.' then |s| - 1
    else LastDot(s[..|s| - 1])
  }

  /**
   * `path.extname` of one component: from the last '.' to the end, except
   * that a leading dot (".profile"), no dot at all, and ".." give ''.
   */
  function ExtName(s: string): string {
    var d := LastDot(s);
    if d <= 0 || s == ".." then "" else s[d..]
  }

  /** `path.basename(s, suffix)` of one component: drops `suffix` when `s` ends with it. */
  function BaseName(s: string, suffix: string): string {
    if 0 < |suffix| <= |s| then
      if suffix == s then ""
      else if s[|s| - |suffix|..] == suffix then s[..|s| - |suffix|]
      else s
    else s
  }

  /**
   * The multer `filename` callback: base name, '-', the millisecond clock,
   * extension.  `basename` drops exactly the extension, so the stored name is
   * the original with the clock reading put in front of its extension.
   */
  function UploadFilename(original: string, now: nat): (r: string)
    ensures var ext := ExtName(original);
      r == original[..|original| - |ext|] + "-" + Decimal(now) + ext
  {
    var ext := ExtName(original);
    ExtNameIsSuffix(original);
    BaseName(original, ext) + "-" + Decimal(now) + ext
  }

  /** The extension is a suffix of the name: empty, or a '.' followed by dot-free text. */
  lemma ExtNameIsSuffix(s: string)
    ensures |ExtName(s)| <= |s| && ExtName(s) == s[|s| - |ExtName(s)|..]
    ensures ExtName(s) != "" ==> ExtName(s)[0] == '.' && |ExtName(s)| < |s|
    ensures forall j :: 0 < j < |ExtName(s)| ==> ExtName(s)[j] != '.'
  {
    var d := LastDot(s);
    if d > 0 && s != ".." {
      assert forall j :: 0 < j < |s| - d ==> s[d..][j] == s[d + j];
    }
  }

  /** The last dot of a name is the one at `k` when no dot follows it. */
  lemma LastDotAt(s: string, k: int)
    requires -1 <= k < |s|
    requires k >= 0 ==> s[k] == '.'
    requires forall j :: k < j < |s| ==> s[j] != '.'
    ensures LastDot(s) == k
  {
  }

  /** Neither '-' nor a decimal digit is a dot or a separator. */
  lemma ClockPartPlain(now: nat)
    ensures forall j :: 0 <= j < |"-" + Decimal(now)| ==>
      ("-" + Decimal(now))[j] != '.' && !IsSeparator(("-" + Decimal(now))[j])
  {
    var digits := Decimal(now);
    var middle := "-" + digits;
    forall j | 0 <= j < |middle| ensures middle[j] != '.' && !IsSeparator(middle[j]) {
      if j > 0 { assert middle[j] == digits[j - 1] && IsDigit(digits[j - 1]); }
    }
  }

  /** Appending a non-empty dot-led extension after a non-empty stem gives back that extension. */
  lemma ExtNameAfterStem(stem: string, ext: string)
    requires stem != [] && stem + ext != ".."
    requires ext != [] && ext[0] == '.'
    requires forall j :: 0 < j < |ext| ==> ext[j] != '.'
    ensures ExtName(stem + ext) == ext
  {
    var f := stem + ext;
    var k := |stem|;
    forall j | k < j < |f| ensures f[j] != '.' {
      assert f[j] == ext[j - k];
    }
    LastDotAt(f, k);
    assert f[k..] == ext;
  }

  /** Appending dot-free text keeps the last dot where it was, so an empty extension stays empty. */
  lemma ExtNameAfterPlainText(name: string, plain: string)
    requires ExtName(name) == "" && name != ".."
    requires plain != [] && forall j :: 0 <= j < |plain| ==> plain[j] != '.'
    ensures ExtName(name + plain) == ""
  {
    var f := name + plain;
    var d := LastDot(name);
    assert d <= 0;
    forall j | d < j < |f| ensures f[j] != '.' {
      if j < |name| { assert f[j] == name[j]; }
      else { assert f[j] == plain[j - |name|]; }
    }
    if d == 0 { assert f[0] == name[0]; }
    LastDotAt(f, d);
  }

  /**
   * Putting dot-free, separator-free text between a name and its extension
   * keeps that extension and adds no separator.
   */
  lemma JoinKeepsExtension(name: string, middle: string, ext: string)
    requires forall i :: 0 <= i < |name| ==> !IsSeparator(name[i])
    requires forall i :: 0 <= i < |ext| ==> !IsSeparator(ext[i])
    requires |middle| >= 2 && forall j :: 0 <= j < |middle| ==> middle[j] != '.' && !IsSeparator(middle[j])
    requires ext != "" ==> ext[0] == '.' && forall j :: 0 < j < |ext| ==> ext[j] != '.'
    requires ext == "" ==> ExtName(name) == "" && name != ".."
    ensures ExtName(name + middle + ext) == ext
    ensures forall i :: 0 <= i < |name + middle + ext| ==> !IsSeparator((name + middle + ext)[i])
  {
    var f := name + middle + ext;
    forall i | 0 <= i < |f| ensures !IsSeparator(f[i]) {
      if i < |name| { assert f[i] == name[i]; }
      else if i < |name| + |middle| { assert f[i] == middle[i - |name|]; }
      else { assert f[i] == ext[i - |name| - |middle|]; }
    }
    if ext != "" {
      assert |f| >= 3;
      ExtNameAfterStem(name + middle, ext);
    } else {
      ExtNameAfterPlainText(name, middle);
      assert f == name + middle;
    }
  }

  /** Both sides of the cut before the extension of a client file name are free of separators. */
  lemma ClientNameParts(original: string)
    requires IsClientFileName(original)
    ensures var ext := ExtName(original);
      var name := original[..|original| - |ext|];
      && (forall i :: 0 <= i < |name| ==> !IsSeparator(name[i]))
      && (forall i :: 0 <= i < |ext| ==> !IsSeparator(ext[i]))
      && (ext == "" ==> ExtName(name) == "" && name != "..")
  {
    var ext := ExtName(original);
    ExtNameIsSuffix(original);
    var cut := |original| - |ext|;
    assert forall i :: 0 <= i < cut ==> original[..cut][i] == original[i];
    assert forall i :: 0 <= i < |ext| ==> ext[i] == original[cut + i];
    assert ext == "" ==> original[..cut] == original;
  }

  /**
   * The stored name keeps the original's extension (so the served file keeps
   * its type) and stays one path component inside the upload directory.
   */
  lemma UploadKeepsExtension(original: string, now: nat)
    requires IsClientFileName(original)
    ensures ExtName(UploadFilename(original, now)) == ExtName(original)
    ensures forall i :: 0 <= i < |UploadFilename(original, now)| ==> !IsSeparator(UploadFilename(original, now)[i])
  {
    var ext := ExtName(original);
    var name := original[..|original| - |ext|];
    var middle := "-" + Decimal(now);
    ClientNameParts(original);
    ClockPartPlain(now);
    assert UploadFilename(original, now) == name + middle + ext;
    JoinKeepsExtension(name, middle, ext);
  }

  /** The clock reading is recoverable from the stored name, so two readings never give the same name. */
  lemma UploadNamesDiffer(original: string, a: nat, b: nat)
    requires IsClientFileName(original)
    ensures UploadFilename(original, a) == UploadFilename(original, b) <==> a == b
  {
    if UploadFilename(original, a) == UploadFilename(original, b) {
      var ext := ExtName(original);
      var name := original[..|original| - |ext|];
      var da, db := Decimal(a), Decimal(b);
      var fa, fb := name + "-" + da + ext, name + "-" + db + ext;
      assert fa == fb;
      assert |da| == |db|;
      assert fa[|name| + 1..|name| + 1 + |da|] == da;
      assert fb[|name| + 1..|name| + 1 + |db|] == db;
      DecimalInjective(a, b);
    }
  }
}
