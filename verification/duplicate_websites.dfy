/** The duplicate website of `parseBusinessCardText` (src/services/ocrService.ts
    line 116), shown on whole texts: the code compares the raw match with
    entries that already carry "http://", so a bare domain on two lines is
    stored twice; the corrected parser stores it once. */
module DuplicateWebsites {
  import opened Types
  import opened Text
  import opened Patterns
  import opened CardParser
  import opened ParserFacts
  import opened MockCard

  lemma TrimmedSelf(d: string)
    requires IsTrimmedLine(d)
    ensures Trim(d) == d
  {
    TrimAround("", d, "");
    assert "" + d + "" == d;
  }

  lemma JoinTwo(d: string)
    ensures Join([d, d], "\n") == d + "\n" + d
  {
    assert [d, d][1..] == [d];
  }

  /** A text of two equal trimmed lines splits into those two lines. */
  lemma TwoEqualLines(d: string)
    requires IsTrimmedLine(d)
    ensures Lines(d + "\n" + d) == [d, d]
  {
    JoinTwo(d);
    SplitJoin([d, d], '\n');
    TrimmedSelf(d);
    TrimmedAll([d, d], [d, d]);
  }

  /** The two website folds over two equal bare-domain matches. */
  lemma FoldsOfTwo(d: string)
    requires !StartsWith(d, "http")
    ensures WebsitesFoldAsWritten([Some(d), Some(d)]) == ["http://" + d, "http://" + d]
    ensures WebsitesFold([Some(d), Some(d)]) == ["http://" + d]
  {
    var ms := [Some(d), Some(d)];
    assert ms[..1] == [Some(d)];
    assert [Some(d)][..0] == [];
    assert d != "http://" + d by {
      assert |d| < |"http://" + d|;
    }
  }

  /** The website matches of two equal lines. */
  lemma MatchesOfTwo(d: string)
    requires WebsiteMatch(d) == Some(d)
    ensures WebsiteMatches([d, d]) == [Some(d), Some(d)]
  {
  }

  /** As written: a bare domain on two lines gives two equal websites. */
  lemma ParseDuplicateAsWritten(d: string, imageUri: Option<string>, ids: nat -> string, now: int)
    requires IsTrimmedLine(d) && WebsiteMatch(d) == Some(d) && !StartsWith(d, "http")
    ensures ParseBusinessCardText(d + "\n" + d, imageUri, ids, now).websites == ["http://" + d, "http://" + d]
  {
    TwoEqualLines(d);
    MatchesOfTwo(d);
    FoldsOfTwo(d);
    ParseWebsitesFold(d + "\n" + d, imageUri, ids, now);
  }

  /** Corrected: the same text gives the website once. */
  lemma ParseDuplicateCorrected(d: string, imageUri: Option<string>, ids: nat -> string, now: int)
    requires IsTrimmedLine(d) && WebsiteMatch(d) == Some(d) && !StartsWith(d, "http")
    ensures ParseBusinessCardTextCorrected(d + "\n" + d, imageUri, ids, now).websites == ["http://" + d]
  {
    TwoEqualLines(d);
    MatchesOfTwo(d);
    FoldsOfTwo(d);
  }

  // ---------------------------------------------------------------------
  // The domain "example.com"
  // ---------------------------------------------------------------------

  const Example: string := "example" + ".com"

  const ExampleChars: set<char> := {'e', 'x', 'a', 'm', 'p', 'l', '.', 'c', 'o'}

  lemma ExampleOver()
    ensures Over(Example, ExampleChars)
  {
  }

  /** The website pattern matches all of "example.com" as a bare domain. */
  lemma ExampleMatch()
    ensures WebsiteMatch(Example) == Some(Example)
  {
    var s := Example;
    ExampleOver();
    NoUrlAt(s, 0, ExampleChars);
    ExampleDomain();
    assert s[0..11] == s;
    FirstAt(s, 0, WebsiteAt, 0, s);
  }

  /** The bare-domain alternative takes the whole string: its last '.' is
      followed by the letters "com". */
  lemma ExampleDomain()
    ensures DomainAt(Example, 0) == Some(11)
  {
    var s := Example;
    RunEndIs(s, 0, 11, IsDomainChar);
    assert TldDotAt(s, 7);
    assert LastTldDotIn(s, 1, 10) == Some(7);
    RunEndIs(s, 8, 11, IsAsciiLetter);
  }

  lemma ExampleBare()
    ensures IsTrimmedLine(Example) && !StartsWith(Example, "http")
  {
    ExampleOver();
    assert Example[0] == 'e';
  }

  /** The text "example.com\nexample.com": the code stores
      "http://example.com" twice, the corrected parser once. */
  lemma ExampleTwice(imageUri: Option<string>, ids: nat -> string, now: int)
    ensures ParseBusinessCardText(Example + "\n" + Example, imageUri, ids, now).websites
      == ["http://" + Example, "http://" + Example]
    ensures ParseBusinessCardTextCorrected(Example + "\n" + Example, imageUri, ids, now).websites
      == ["http://" + Example]
  {
    ExampleMatch();
    ExampleBare();
    ParseDuplicateAsWritten(Example, imageUri, ids, now);
    ParseDuplicateCorrected(Example, imageUri, ids, now);
  }
}
