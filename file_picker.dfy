/**
 * Choosing the report files inside a dated folder: a name is a PDF or a PNG when its
 * lower-cased form ends in ".pdf" or ".png". Lower-casing maps ASCII letters only.
 */
module FilePicker {
  import opened Wrappers

  const PdfSuffix := ".pdf"
  const PngSuffix := ".png"

  /** Python's `str.lower` on one ASCII character: capitals become small letters, the rest is kept. */
  function LowerChar(c: char): (l: char)
    ensures !('A' <= l <= 'Z')
    ensures !('A' <= c <= 'Z') ==> l == c
    ensures 'A' <= c <= 'Z' ==> l as int == c as int + ('a' as int - 'A' as int)
  {
    if 'A' <= c <= 'Z' then (c as int - 'A' as int + 'a' as int) as char else c
  }

  function Lower(s: string): (r: string)
    ensures |r| == |s|
    ensures forall i :: 0 <= i < |s| ==> !('A' <= r[i] <= 'Z')
    ensures forall i :: 0 <= i < |s| && !('A' <= s[i] <= 'Z') ==> r[i] == s[i]
    ensures forall i :: 0 <= i < |s| && 'A' <= s[i] <= 'Z' ==> r[i] as int == s[i] as int + ('a' as int - 'A' as int)
  {
    seq(|s|, i requires 0 <= i < |s| => LowerChar(s[i]))
  }

  predicate EndsWith(s: string, suffix: string)
  {
    |suffix| <= |s| && s[|s| - |suffix|..] == suffix
  }

  /** `name.lower().endswith(suffix)`. */
  predicate EndsWithIgnoringCase(name: string, suffix: string)
  {
    EndsWith(Lower(name), suffix)
  }

  /** Two characters that differ at most in ASCII case. */
  predicate SameIgnoringCase(a: char, b: char)
  {
    a == b
    || ('A' <= a <= 'Z' && b as int == a as int + ('a' as int - 'A' as int))
    || ('A' <= b <= 'Z' && a as int == b as int + ('a' as int - 'A' as int))
  }

  /** Names that differ only in the case of ASCII letters are lowered to the same text. */
  lemma LowerIgnoresCase(a: string, b: string)
    requires |a| == |b|
    requires forall i :: 0 <= i < |a| ==> SameIgnoringCase(a[i], b[i])
    ensures Lower(a) == Lower(b)
  {
    forall i | 0 <= i < |a| ensures Lower(a)[i] == Lower(b)[i] {
      assert SameIgnoringCase(a[i], b[i]);
    }
  }

  /** So the suffix test gives the same answer for both names. */
  lemma SuffixTestIgnoresCase(a: string, b: string, suffix: string)
    requires |a| == |b|
    requires forall i :: 0 <= i < |a| ==> SameIgnoringCase(a[i], b[i])
    ensures EndsWithIgnoringCase(a, suffix) <==> EndsWithIgnoringCase(b, suffix)
  {
    LowerIgnoresCase(a, b);
  }

  /** No name is both a PDF and a PNG, so the `elif` never hides a PNG. */
  lemma PdfIsNotPng(name: string)
    requires EndsWithIgnoringCase(name, PdfSuffix)
    ensures !EndsWithIgnoringCase(name, PngSuffix)
  {
    var l := Lower(name);
    assert l[|l| - 4..][2] == 'd';
  }

  /** Upper-case suffixes are recognised: "REPORT.PDF" is a PDF. */
  lemma UpperCaseSuffix()
    ensures EndsWithIgnoringCase("REPORT.PDF", PdfSuffix)
    ensures EndsWithIgnoringCase("Chart.Png", PngSuffix)
  {
    assert Lower("REPORT.PDF") == "report.pdf";
    assert Lower("Chart.Png") == "chart.png";
  }

  /** The last entry of the listing whose lower-cased name ends in `suffix`. */
  function LastWithSuffix(files: seq<string>, suffix: string): (r: Option<string>)
    ensures r.Some? ==> r.value in files && EndsWithIgnoringCase(r.value, suffix)
  {
    if files == [] then None
    else if EndsWithIgnoringCase(files[|files| - 1], suffix) then Some(files[|files| - 1])
    else LastWithSuffix(files[..|files| - 1], suffix)
  }

  /**
   * `LastWithSuffix` finds a name exactly when some entry has the suffix, and the name
   * it finds is an entry with the suffix that no later entry with the suffix follows.
   */
  lemma {:induction false} LastWithSuffixIsLastMatch(files: seq<string>, suffix: string) returns (k: nat)
    ensures LastWithSuffix(files, suffix).None? <==> forall j :: 0 <= j < |files| ==> !EndsWithIgnoringCase(files[j], suffix)
    ensures LastWithSuffix(files, suffix).Some? ==>
      && k < |files| && files[k] == LastWithSuffix(files, suffix).value
      && EndsWithIgnoringCase(files[k], suffix)
      && forall j :: k < j < |files| ==> !EndsWithIgnoringCase(files[j], suffix)
  {
    k := 0;
    if files != [] {
      var n := |files| - 1;
      if EndsWithIgnoringCase(files[n], suffix) {
        k := n;
      } else {
        var init := files[..n];
        k := LastWithSuffixIsLastMatch(init, suffix);
        assert forall j :: 0 <= j < n ==> init[j] == files[j];
      }
    }
  }
}
