/** Recognising image files by name: the lower-cased name must end in one of
    five extensions. */
module ImageFiles {

  /** The extensions an image file may carry, lower case. */
  const IMAGE_SUFFIXES: seq<string> := [".png", ".jpg", ".jpeg", ".gif", ".bmp"]

  /** ASCII lower-casing of one character: a capital letter moves 32 code
      points up to its small letter; everything else is kept. */
  function LowerChar(c: char): (r: char)
    ensures 'A' <= c <= 'Z' ==> r as int == c as int + 32 && 'a' <= r <= 'z'
    ensures !('A' <= c <= 'Z') ==> r == c
  {
    if 'A' <= c <= 'Z' then (c as int + 32) as char else c
  }

  /** ASCII upper-casing, the inverse move of 32 code points down. */
  function UpperChar(c: char): (r: char)
    ensures 'a' <= c <= 'z' ==> r as int == c as int - 32 && 'A' <= r <= 'Z'
    ensures !('a' <= c <= 'z') ==> r == c
    ensures LowerChar(r) == LowerChar(c)
  {
    if 'a' <= c <= 'z' then (c as int - 32) as char else c
  }

  function ToLower(s: string): (r: string)
    ensures |r| == |s| && forall i :: 0 <= i < |s| ==> r[i] == LowerChar(s[i])
  {
    seq(|s|, i requires 0 <= i < |s| => LowerChar(s[i]))
  }

  function ToUpper(s: string): (r: string)
    ensures |r| == |s| && forall i :: 0 <= i < |s| ==> r[i] == UpperChar(s[i])
  {
    seq(|s|, i requires 0 <= i < |s| => UpperChar(s[i]))
  }

  predicate EndsWith(s: string, suffix: string) {
    |suffix| <= |s| && s[|s| - |suffix|..] == suffix
  }

  /** Whether the file name looks like an image, ignoring letter case: its
      lower-cased form ends in one of the five extensions, so it has at least
      four characters. */
  predicate IsImageFile(name: string): (r: bool)
    ensures r <==> var lower := ToLower(name);
      || EndsWith(lower, ".png") || EndsWith(lower, ".jpg") || EndsWith(lower, ".jpeg")
      || EndsWith(lower, ".gif") || EndsWith(lower, ".bmp")
    ensures r ==> |name| >= 4
  {
    var lower := ToLower(name);
    assert IMAGE_SUFFIXES[0] == ".png" && IMAGE_SUFFIXES[1] == ".jpg" && IMAGE_SUFFIXES[2] == ".jpeg";
    assert IMAGE_SUFFIXES[3] == ".gif" && IMAGE_SUFFIXES[4] == ".bmp";
    exists k :: 0 <= k < |IMAGE_SUFFIXES| && EndsWith(lower, IMAGE_SUFFIXES[k])
  }

  /** Upper-casing first changes nothing once the name is lower-cased. */
  lemma LowerOfUpper(s: string)
    ensures ToLower(ToUpper(s)) == ToLower(s)
  {
    var a := ToLower(ToUpper(s));
    var b := ToLower(s);
    forall i | 0 <= i < |s|
      ensures a[i] == b[i]
    {
      assert a[i] == LowerChar(UpperChar(s[i]));
    }
  }

  /** The test ignores letter case: a name and its upper-case spelling are
      judged alike. */
  lemma IsImageFileIgnoresCase(name: string)
    ensures IsImageFile(ToUpper(name)) <==> IsImageFile(name)
  {
    LowerOfUpper(name);
  }

  /** A name containing no '.' is never an image, since every extension
      starts with one. */
  lemma NoDotNoImage(name: string)
    requires forall i :: 0 <= i < |name| ==> name[i] != '.'
    ensures !IsImageFile(name)
  {
    var lower := ToLower(name);
    forall k | 0 <= k < |IMAGE_SUFFIXES|
      ensures !EndsWith(lower, IMAGE_SUFFIXES[k])
    {
      var suffix := IMAGE_SUFFIXES[k];
      if |suffix| <= |lower| {
        var j := |lower| - |suffix|;
        assert lower[j] != '.';
        assert lower[j..][0] != suffix[0];
      }
    }
  }

  /** Each listed extension, in any case, is accepted on its own. */
  lemma SuffixesAreImages(k: int)
    requires 0 <= k < |IMAGE_SUFFIXES|
    ensures IsImageFile(IMAGE_SUFFIXES[k])
    ensures IsImageFile(ToUpper(IMAGE_SUFFIXES[k]))
  {
    var s := IMAGE_SUFFIXES[k];
    assert ToLower(s) == s;
    assert EndsWith(ToLower(s), s);
    IsImageFileIgnoresCase(s);
  }
}
