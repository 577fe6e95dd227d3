/** The sample card of the OCR service: the text that `processBusinessCard`
    in src/services/ocrService.ts hands to the parser in place of a real
    recognition, and what `parseBusinessCardText` makes of it.

    The lines are written as concatenations of their meaningful pieces (the
    numbers, the domain) so that the lemmas can name those pieces; the strings
    are the same. The first part of the module holds small evaluation lemmas
    that decide the scanners on a line from the characters it lacks. */
module MockCard {
  import opened Types
  import opened Text
  import opened Patterns
  import opened CardParser
  import opened ParserFacts

  // ---------------------------------------------------------------------
  // The text
  // ---------------------------------------------------------------------

  const WorkNumber: string := "03-6264-9166"
  const FaxNumber: string := "03-6264-9195"
  const MobileNumber: string := "070-1319-4481"
  const PostalCode: string := "103-0016"
  const Domain: string := "ptm-tokyo.co" + ".jp"
  const Mailbox: string := "k_shigiyama88"

  const NameLine: string := "鴨山かほり"
  const CompanyLine: string := "統一超商東京マーケティング" + "株式会社"
  const DivisionLine: string := "輸入国内事業部"
  const TitleLine: string := "食品・飲料チーム" + "リーダー"
  const PostalLine: string := "〒" + PostalCode
  const StreetLine: string := "東京都中央区" + "日本橋小網町" + "3-11 " + "日本橋SOYIC4階"
  const TelLine: string := "Tel: " + WorkNumber + "  Fax: " + FaxNumber
  const MobileLine: string := "Mobile: " + MobileNumber
  const MailLine: string := Mailbox + "@" + Domain
  const UrlLine: string := "http://" + Domain

  /** The lines of the card after splitting and trimming. */
  const CardLines: seq<string> :=
    [NameLine, CompanyLine, DivisionLine, TitleLine, PostalLine,
     StreetLine, TelLine, MobileLine, MailLine, UrlLine]

  /** The indentation of the template literal in front of every line but the
      first. */
  const Indent: string := "      "

  /** The pieces of the text between its line breaks. */
  const RawLines: seq<string> :=
    [NameLine, Indent + CompanyLine, Indent + DivisionLine, Indent + TitleLine,
     Indent + PostalLine, Indent + StreetLine, Indent + TelLine,
     Indent + MobileLine, Indent + MailLine, Indent + UrlLine]

  /** The recognised text of the sample card. */
  const MockText: string := Join(RawLines, "\n")

  // ---------------------------------------------------------------------
  // Evaluation lemmas
  // ---------------------------------------------------------------------

  /** The two properties of `RunEnd` determine it. */
  lemma RunEndIs(s: string, i: nat, j: nat, P: char -> bool)
    requires i <= j <= |s|
    requires forall k :: i <= k < j ==> P(s[k])
    requires j == |s| || !P(s[j])
    ensures RunEnd(s, i, P) == j
  {
  }

  /** The leftmost match is at `q` when nothing matches before it. */
  lemma FirstAt<T>(s: string, from: nat, at: (string, nat) -> Option<T>, q: nat, v: T)
    requires from <= q <= |s| && at(s, q) == Some(v)
    requires forall p :: from <= p < q ==> at(s, p).None?
    ensures FindFirst(s, from, at) == Some(Hit(q, v))
  {
  }

  /** Trimming removes exactly the white space around a piece that starts
      and ends with other characters. */
  lemma TrimAround(a: string, x: string, b: string)
    requires AllSpace(a) && AllSpace(b)
    requires x != [] && !IsSpace(x[0]) && !IsSpace(x[|x| - 1])
    ensures Trim(a + x + b) == x
  {
    var s := a + x + b;
    assert s[|a|] == x[0];
    assert SpaceRunEnd(s, 0) == |a|;
    assert s[|a| + |x| - 1] == x[|x| - 1];
    assert SpaceRunStart(s, |a|, |s|) == |a| + |x|;
    assert s[|a|..|a| + |x|] == x;
  }

  /** Trimming every piece to a known non-empty line keeps them all. */
  lemma {:induction false} TrimmedAll(pieces: seq<string>, lines: seq<string>)
    requires |pieces| == |lines|
    requires forall k :: 0 <= k < |pieces| ==> '\n' !in pieces[k]
    requires forall k :: 0 <= k < |pieces| ==> Trim(pieces[k]) == lines[k] && lines[k] != []
    ensures TrimmedNonEmpty(pieces) == lines
    decreases |pieces|
  {
    if pieces != [] {
      TrimmedAll(pieces[1..], lines[1..]);
      assert lines == [lines[0]] + lines[1..];
    }
  }

  /** A line over an alphabet without a line break, whose ends are not
      white space, is trimmed. */
  lemma TrimmedOver(line: string, alphabet: set<char>)
    requires Over(line, alphabet) && '\n' !in alphabet
    requires line != [] && !IsSpace(line[0]) && !IsSpace(line[|line| - 1])
    ensures IsTrimmedLine(line)
  {
  }

  lemma HeadTrimmed()
    ensures IsTrimmedLine(NameLine) && IsTrimmedLine(CompanyLine) && IsTrimmedLine(DivisionLine)
    ensures IsTrimmedLine(TitleLine) && IsTrimmedLine(PostalLine)
  {
    HeadAlphabets();
    TrimmedOver(NameLine, NameChars);
    TrimmedOver(CompanyLine, CompanyChars);
    TrimmedOver(DivisionLine, DivisionChars);
    TrimmedOver(TitleLine, TitleChars);
    TrimmedOver(PostalLine, PostalChars);
  }

  lemma TailTrimmed()
    ensures IsTrimmedLine(StreetLine) && IsTrimmedLine(TelLine) && IsTrimmedLine(MobileLine)
    ensures IsTrimmedLine(MailLine) && IsTrimmedLine(UrlLine)
  {
    StreetOver();
    TelOver();
    MobileOver();
    MailOver();
    UrlOver();
    TrimmedOver(StreetLine, StreetChars);
    TrimmedOver(TelLine, TelChars);
    TrimmedOver(MobileLine, MobileChars);
    TrimmedOver(MailLine, MailChars);
    TrimmedOver(UrlLine, UrlChars);
  }

  /** Every line of the card is already trimmed and has no line break. */
  lemma CardLinesTrimmed()
    ensures forall k :: 0 <= k < |CardLines| ==> IsTrimmedLine(CardLines[k])
  {
    HeadTrimmed();
    TailTrimmed();
  }

  /** The sample text splits into the ten lines of the card. */
  lemma MockLines()
    ensures Lines(MockText) == [NameLine, CompanyLine, DivisionLine, TitleLine, PostalLine,
                                StreetLine, TelLine, MobileLine, MailLine, UrlLine]
  {
    CardLinesTrimmed();
    assert RawLines[0] == CardLines[0];
    assert forall k :: 1 <= k < |RawLines| ==> RawLines[k] == Indent + CardLines[k];
    forall k | 0 <= k < |RawLines|
      ensures '\n' !in RawLines[k] && Trim(RawLines[k]) == CardLines[k] && CardLines[k] != []
    {
      var line := CardLines[k];
      if k == 0 {
        TrimAround("", line, "");
        assert "" + line + "" == line;
      } else {
        assert Indent + line + "" == RawLines[k];
        TrimAround(Indent, line, "");
      }
    }
    SplitJoin(RawLines, '\n');
    TrimmedAll(RawLines, CardLines);
  }

  // ---------------------------------------------------------------------
  // Deciding the scanners from the characters a line lacks
  // ---------------------------------------------------------------------

  /** Every character of `s` is drawn from `alphabet`. */
  predicate Over(s: string, alphabet: set<char>)
  {
    forall i :: 0 <= i < |s| ==> s[i] in alphabet
  }

  /** `w` cannot occur where one of its characters is missing. */
  lemma Absent(s: string, w: string, i: nat)
    requires i < |w| && w[i] !in s
    ensures !Contains(s, w)
  {
    ContainsIff(s, w);
  }

  /** A case-insensitive label cannot match where neither case of one of its
      characters occurs. */
  lemma NoLabel(s: string, p: nat, w: string, i: nat, alphabet: set<char>)
    requires Over(s, alphabet) && i < |w|
    requires w[i] !in alphabet && LowerChar(w[i]) !in alphabet && UpperChar(w[i]) !in alphabet
    ensures !LabelAt(s, p, w)
  {
  }

  /** None of the telephone labels matches at `p` without an 'l' (in "Tel",
      "TEL" and "Mobile"), a '電' or a '携'. */
  lemma NoPhoneLabel(s: string, p: nat, alphabet: set<char>)
    requires Over(s, alphabet)
    requires 'l' !in alphabet && 'L' !in alphabet && '電' !in alphabet && '携' !in alphabet
    ensures LabelEnd(s, p, PhoneLabels).None?
  {
    NoLabel(s, p, "Tel", 2, alphabet);
    NoLabel(s, p, "TEL", 2, alphabet);
    NoLabel(s, p, "電話", 0, alphabet);
    NoLabel(s, p, "Mobile", 4, alphabet);
    NoLabel(s, p, "携帯", 0, alphabet);
  }

  lemma NoPhone(s: string, alphabet: set<char>)
    requires Over(s, alphabet)
    requires 'l' !in alphabet && 'L' !in alphabet && '電' !in alphabet && '携' !in alphabet
    ensures PhoneMatch(s).None?
  {
    forall p | 0 <= p <= |s| ensures PhoneAt(s, p).None? {
      NoPhoneLabel(s, p, alphabet);
    }
  }

  /** Neither fax label matches at `p` without an 'x'. */
  lemma NoFaxLabel(s: string, p: nat, alphabet: set<char>)
    requires Over(s, alphabet) && 'x' !in alphabet && 'X' !in alphabet
    ensures LabelEnd(s, p, FaxLabels).None?
  {
    NoLabel(s, p, "Fax", 2, alphabet);
    NoLabel(s, p, "FAX", 2, alphabet);
  }

  lemma NoFax(s: string, alphabet: set<char>)
    requires Over(s, alphabet) && 'x' !in alphabet && 'X' !in alphabet
    ensures FaxMatch(s).None?
  {
    forall p | 0 <= p <= |s| ensures FaxAt(s, p).None? {
      NoFaxLabel(s, p, alphabet);
    }
  }

  /** No e-mail match without an '@'. */
  lemma NoEmail(s: string, alphabet: set<char>)
    requires Over(s, alphabet) && '@' !in alphabet
    ensures EmailMatch(s).None?
  {
    forall p | 0 <= p <= |s| ensures EmailAt(s, p).None? {
      if p < |s| && IsLocalChar(s[p]) {
        var e := RunEnd(s, p, IsLocalChar);
        assert e < |s| ==> s[e] in alphabet;
      }
    }
  }

  /** A label matching at `p` is followed by separators up to `j` and by
      number characters from `j` up to `e`: the number is that run. */
  lemma NumberAfter(s: string, q: nat, j: nat, e: nat)
    requires q <= j < e <= |s|
    requires forall k :: q <= k < j ==> IsSeparator(s[k])
    requires !IsSeparator(s[j])
    requires forall k :: j <= k < e ==> IsNumberChar(s[k])
    requires e == |s| || !IsNumberChar(s[e])
    ensures NumberAfterLabel(s, q) == Some(s[j..e])
  {
    RunEndIs(s, q, j, IsSeparator);
    RunEndIs(s, j, e, IsNumberChar);
  }

  /** A label cannot match anywhere its character `w[i]` would fall in a
      prefix that lacks both cases of that character. */
  lemma NoLabelBefore(s: string, n: nat, w: string, i: nat, alphabet: set<char>)
    requires n <= |s| && Over(s[..n], alphabet) && i < |w|
    requires w[i] !in alphabet && LowerChar(w[i]) !in alphabet && UpperChar(w[i]) !in alphabet
    ensures forall p: nat :: p + i < n ==> !LabelAt(s, p, w)
  {
    forall p: nat | p + i < n ensures !LabelAt(s, p, w) {
      assert s[..n][p + i] == s[p + i];
    }
  }

  /** Lower-casing cannot produce a character whose two cases are missing. */
  lemma LowerLacks(s: string, alphabet: set<char>, c: char)
    requires Over(s, alphabet) && c !in alphabet && UpperChar(c) !in alphabet
    ensures c !in Lower(s)
  {
  }

  /** `w` occurs nowhere in a string that lacks one of its characters. */
  lemma NotOccurs(s: string, w: string, i: nat, alphabet: set<char>, p: nat)
    requires Over(s, alphabet) && i < |w| && w[i] !in alphabet
    ensures !OccursAt(s, w, p)
  {
  }

  /** Neither URL alternative of the website pattern matches at `p` without
      a 'w' and one of 'h' and ':'. */
  lemma NoUrlAt(s: string, p: nat, alphabet: set<char>)
    requires Over(s, alphabet) && 'w' !in alphabet
    requires 'h' !in alphabet || ':' !in alphabet
    ensures UrlEnd(s, p).None? && WwwEnd(s, p).None?
  {
    NotOccurs(s, "www.", 0, alphabet, p);
    if 'h' !in alphabet {
      NotOccurs(s, "https://", 0, alphabet, p);
      NotOccurs(s, "http://", 0, alphabet, p);
    } else {
      NotOccurs(s, "https://", 5, alphabet, p);
      NotOccurs(s, "http://", 4, alphabet, p);
    }
  }

  /** The bare-domain alternative needs a '.'. */
  lemma NoDomainAt(s: string, p: nat, alphabet: set<char>)
    requires Over(s, alphabet) && '.' !in alphabet
    ensures DomainAt(s, p).None?
  {
  }

  /** No website match without a '.', a 'w', and one of 'h' and ':'. */
  lemma NoWebsite(s: string, alphabet: set<char>)
    requires Over(s, alphabet) && '.' !in alphabet && 'w' !in alphabet
    requires 'h' !in alphabet || ':' !in alphabet
    ensures WebsiteMatch(s).None?
  {
    forall p | 0 <= p <= |s| ensures WebsiteAt(s, p).None? {
      NoUrlAt(s, p, alphabet);
      NoDomainAt(s, p, alphabet);
    }
  }

  /** No postal code without an ASCII digit. */
  lemma NoPostal(s: string, alphabet: set<char>)
    requires Over(s, alphabet) && forall c :: c in alphabet ==> !IsDigit(c)
    ensures PostalMatch(s).None?
  {
    forall p | 0 <= p <= |s| ensures PostalAt(s, p).None? {
    }
  }

  /** `w` has two characters or more, and its first, second or last one is
      not in `alphabet`. */
  predicate Lacks(w: string, alphabet: set<char>)
  {
    |w| >= 2 && (w[0] !in alphabet || w[1] !in alphabet || w[|w| - 1] !in alphabet)
  }

  /** No keyword occurs in a line over an alphabet that each keyword lacks. */
  lemma NoKeyword(s: string, alphabet: set<char>, keywords: seq<string>)
    requires Over(s, alphabet)
    requires forall k :: 0 <= k < |keywords| ==> Lacks(keywords[k], alphabet)
    ensures !ContainsAny(s, keywords)
  {
    forall k | 0 <= k < |keywords| ensures !Contains(s, keywords[k]) {
      var w := keywords[k];
      if w[0] !in alphabet { Absent(s, w, 0); }
      else if w[1] !in alphabet { Absent(s, w, 1); }
      else { Absent(s, w, |w| - 1); }
    }
  }

  // ---------------------------------------------------------------------
  // The characters of each line
  // ---------------------------------------------------------------------

  const NameChars: set<char> := {'鴨', '山', 'か', 'ほ', 'り'}
  const CompanyChars: set<char> :=
    {'統', '一', '超', '商', '東', '京', 'マ', 'ー', 'ケ', 'テ', 'ィ', 'ン', 'グ', '株', '式', '会', '社'}
  const DivisionChars: set<char> := {'輸', '入', '国', '内', '事', '業', '部'}
  const TitleChars: set<char> := {'食', '品', '・', '飲', '料', 'チ', 'ー', 'ム', 'リ', 'ダ'}
  const PostalChars: set<char> := {'〒', '1', '0', '3', '-', '6'}
  const StreetChars: set<char> :=
    {'東', '京', '都', '中', '央', '区', '日', '本', '橋', '小', '網', '町', '3', '-', '1', ' ',
     'S', 'O', 'Y', 'I', 'C', '4', '階'}
  const TelChars: set<char> :=
    {'T', 'e', 'l', ':', ' ', '0', '3', '-', '6', '2', '4', '9', '1', 'F', 'a', 'x', '5'}
  const MobileChars: set<char> :=
    {'M', 'o', 'b', 'i', 'l', 'e', ':', ' ', '0', '7', '-', '1', '3', '9', '4', '8'}
  const MailChars: set<char> :=
    {'k', '_', 's', 'h', 'i', 'g', 'y', 'a', 'm', '8', '@', 'p', 't', '-', 'o', '.', 'c', 'j'}
  const UrlChars: set<char> := {'h', 't', 'p', ':', '/', 'm', '-', 'o', 'k', 'y', '.', 'c', 'j'}

  lemma HeadAlphabets()
    ensures Over(NameLine, NameChars) && Over(CompanyLine, CompanyChars)
    ensures Over(DivisionLine, DivisionChars) && Over(TitleLine, TitleChars)
    ensures Over(PostalLine, PostalChars)
  {
  }

  lemma StreetOver()
    ensures Over(StreetLine, StreetChars)
  {
  }

  lemma TelOver()
    ensures Over(TelLine, TelChars)
  {
  }

  lemma MobileOver()
    ensures Over(MobileLine, MobileChars)
  {
  }

  lemma MailOver()
    ensures Over(MailLine, MailChars)
  {
  }

  lemma UrlOver()
    ensures Over(UrlLine, UrlChars)
  {
  }

  // ---------------------------------------------------------------------
  // What each line is
  // ---------------------------------------------------------------------

  /** A line that adds no phone, e-mail or website entry. */
  predicate Quiet(line: string)
  {
    LinePhones(line) == [] && LineEmails(line) == [] && WebsiteMatch(line).None?
  }

  /** A line with none of the characters any entry scanner needs. */
  lemma QuietOver(line: string, alphabet: set<char>)
    requires Over(line, alphabet)
    requires 'l' !in alphabet && 'L' !in alphabet && '電' !in alphabet && '携' !in alphabet
    requires 'x' !in alphabet && 'X' !in alphabet && '@' !in alphabet && '.' !in alphabet
    requires 'w' !in alphabet && 'h' !in alphabet
    ensures Quiet(line)
  {
    NoPhone(line, alphabet);
    NoFax(line, alphabet);
    NoEmail(line, alphabet);
    NoWebsite(line, alphabet);
  }

  /** A line without a digit or one of 都, 県, 区, 市 offers no address. */
  lemma NoAddress(line: string, alphabet: set<char>)
    requires Over(line, alphabet) && forall c :: c in alphabet ==> !IsDigit(c)
    requires '都' !in alphabet && '県' !in alphabet && '区' !in alphabet && '市' !in alphabet
    ensures !IsAddressLine(line)
  {
    NoPostal(line, alphabet);
  }

  lemma NameNotPosition()
    ensures !IsPosition(NameLine)
  {
    HeadAlphabets();
    NoKeyword(NameLine, NameChars, PositionKeywords);
  }

  lemma NameNotCompany()
    ensures !IsCompanyName(NameLine)
  {
    HeadAlphabets();
    NoKeyword(NameLine, NameChars, CompanyKeywords);
  }

  lemma NameNotAddress()
    ensures !IsAddressLine(NameLine) && '部' !in NameLine
  {
    HeadAlphabets();
    NoAddress(NameLine, NameChars);
  }

  lemma NameQuiet()
    ensures Quiet(NameLine)
  {
    HeadAlphabets();
    QuietOver(NameLine, NameChars);
  }

  /** A line that ends in keyword `k` contains a keyword. */
  lemma EndsInKeyword(a: string, w: string, keywords: seq<string>, k: nat)
    requires k < |keywords| && keywords[k] == w
    ensures ContainsAny(a + w, keywords)
  {
    assert OccursAt(a + w, w, |a|);
    ContainsIff(a + w, w);
  }

  lemma CompanyIsCompany()
    ensures IsCompanyName(CompanyLine)
  {
    EndsInKeyword("統一超商東京マーケティング", "株式会社", CompanyKeywords, 0);
  }

  lemma CompanyNotPosition()
    ensures !IsPosition(CompanyLine)
  {
    HeadAlphabets();
    NoKeyword(CompanyLine, CompanyChars, PositionKeywords);
  }

  lemma CompanyNotAddress()
    ensures !IsAddressLine(CompanyLine) && '部' !in CompanyLine
  {
    HeadAlphabets();
    NoAddress(CompanyLine, CompanyChars);
  }

  lemma CompanyQuiet()
    ensures Quiet(CompanyLine)
  {
    HeadAlphabets();
    QuietOver(CompanyLine, CompanyChars);
  }

  /** The division line has a '部' but no position keyword ("部長" needs a
      '長'), so it is neither a position nor a department line. */
  lemma DivisionNotPosition()
    ensures !IsPosition(DivisionLine)
  {
    HeadAlphabets();
    NoKeyword(DivisionLine, DivisionChars, PositionKeywords);
  }

  lemma DivisionNotAddress()
    ensures !IsAddressLine(DivisionLine)
  {
    HeadAlphabets();
    NoAddress(DivisionLine, DivisionChars);
  }

  lemma DivisionQuiet()
    ensures Quiet(DivisionLine)
  {
    HeadAlphabets();
    QuietOver(DivisionLine, DivisionChars);
  }

  lemma TitleIsPosition()
    ensures IsPosition(TitleLine)
  {
    EndsInKeyword("食品・飲料チーム", "リーダー", PositionKeywords, 10);
  }

  lemma TitleNotAddress()
    ensures !IsAddressLine(TitleLine) && '部' !in TitleLine
  {
    HeadAlphabets();
    NoAddress(TitleLine, TitleChars);
  }

  lemma TitleQuiet()
    ensures Quiet(TitleLine)
  {
    HeadAlphabets();
    QuietOver(TitleLine, TitleChars);
  }

  // ---------------------------------------------------------------------
  // The postal-code line
  // ---------------------------------------------------------------------

  lemma PostalCodeAt()
    ensures CodeEnd(PostalLine, 1) == Some(9) && PostalLine[1..9] == PostalCode
  {
    assert DigitsAt(PostalLine, 1, 3);
    assert DigitsAt(PostalLine, 5, 4);
  }

  lemma PostalFound()
    ensures PostalMatch(PostalLine) == Some(PostalCode)
  {
    PostalCodeAt();
    RunEndIs(PostalLine, 1, 1, IsSpace);
    FirstAt(PostalLine, 0, PostalAt, 0, PostalCode);
  }

  lemma PostalRemoved()
    ensures RemovePostalMark(PostalLine) == ""
  {
    PostalCodeAt();
    RunEndIs(PostalLine, 1, 1, IsSpace);
    RunEndIs(PostalLine, 9, 9, IsSpace);
    FirstAt(PostalLine, 0, PostalMarkAt, 0, 9);
  }

  /** Nothing is left of the postal-code line once the code is cut out, so
      the whole line stands in for the street. */
  lemma PostalAddress()
    ensures IsAddressLine(PostalLine)
    ensures AddressOf(PostalLine) == AddressFound(PostalLine, PostalCode)
  {
    PostalFound();
    PostalRemoved();
    assert Trim("") == "";
  }

  lemma PostalQuiet()
    ensures Quiet(PostalLine) && '部' !in PostalLine
  {
    HeadAlphabets();
    QuietOver(PostalLine, PostalChars);
  }

  lemma StreetNoPhone()
    ensures PhoneMatch(StreetLine).None?
  {
    StreetOver();
    NoPhone(StreetLine, StreetChars);
  }

  lemma StreetNoFax()
    ensures FaxMatch(StreetLine).None? && '部' !in StreetLine
  {
    StreetOver();
    NoFax(StreetLine, StreetChars);
  }

  lemma StreetNoEmail()
    ensures EmailMatch(StreetLine).None?
  {
    StreetOver();
    NoEmail(StreetLine, StreetChars);
  }

  lemma StreetNoWebsite()
    ensures WebsiteMatch(StreetLine).None?
  {
    StreetOver();
    NoWebsite(StreetLine, StreetChars);
  }

  lemma StreetQuiet()
    ensures Quiet(StreetLine)
  {
    StreetNoPhone();
    StreetNoFax();
    StreetNoEmail();
    StreetNoWebsite();
  }

  // ---------------------------------------------------------------------
  // The telephone line
  // ---------------------------------------------------------------------

  lemma TelLabel()
    ensures LabelEnd(TelLine, 0, PhoneLabels) == Some(3)
  {
    assert TelLine[..3] == "Tel";
    assert LabelAt(TelLine, 0, "Tel");
  }

  lemma TelRun()
    ensures NumberAfterLabel(TelLine, 3) == Some(WorkNumber + "  ")
  {
    assert TelLine[5..19] == WorkNumber + "  ";
    NumberAfter(TelLine, 3, 5, 19);
  }

  lemma TelNumber()
    ensures PhoneMatch(TelLine) == Some(WorkNumber + "  ")
  {
    TelLabel();
    TelRun();
    FirstAt(TelLine, 0, PhoneAt, 0, WorkNumber + "  ");
  }

  const TelHeadChars: set<char> := {'T', 'e', 'l', ':', ' ', '0', '3', '-', '6', '2', '4', '9', '1'}

  lemma TelFaxLabel()
    ensures forall p :: 0 <= p < 19 ==> FaxAt(TelLine, p).None?
    ensures LabelEnd(TelLine, 19, FaxLabels) == Some(22)
  {
    assert Over(TelLine[..19], TelHeadChars);
    NoLabelBefore(TelLine, 19, "Fax", 0, TelHeadChars);
    NoLabelBefore(TelLine, 19, "FAX", 0, TelHeadChars);
    assert TelLine[19..22] == "Fax";
    assert LabelAt(TelLine, 19, "Fax");
  }

  lemma TelFaxRun()
    ensures NumberAfterLabel(TelLine, 22) == Some(FaxNumber)
  {
    assert TelLine[24..36] == FaxNumber;
    NumberAfter(TelLine, 22, 24, 36);
  }

  lemma TelFax()
    ensures FaxMatch(TelLine) == Some(FaxNumber)
  {
    TelFaxLabel();
    TelFaxRun();
    FirstAt(TelLine, 0, FaxAt, 19, FaxNumber);
  }

  lemma TelKind()
    ensures PhoneKindOf(TelLine) == Work
  {
    TelOver();
    LowerLacks(TelLine, TelChars, 'b');
    LowerLacks(TelLine, TelChars, '携');
    Absent(Lower(TelLine), "mobile", 2);
    Absent(Lower(TelLine), "携帯", 0);
  }

  lemma NumbersTrimmed()
    ensures Trim(WorkNumber + "  ") == WorkNumber && Trim(FaxNumber) == FaxNumber
  {
    TrimAround("", WorkNumber, "  ");
    TrimAround("", FaxNumber, "");
    assert "" + WorkNumber + "  " == WorkNumber + "  ";
    assert "" + FaxNumber + "" == FaxNumber;
  }

  lemma TelEntry()
    ensures TelEntries(TelLine) == [PhoneFound("勤務先電話", WorkNumber, Work)]
  {
    TelNumber();
    TelKind();
    NumbersTrimmed();
  }

  lemma FaxEntry()
    ensures FaxEntries(TelLine) == [PhoneFound("FAX", FaxNumber, Fax)]
  {
    TelFax();
    NumbersTrimmed();
  }

  /** The telephone line gives the work number and then the fax number. */
  lemma TelPhones()
    ensures LinePhones(TelLine) == [WorkPhone, FaxPhone]
  {
    TelEntry();
    FaxEntry();
  }

  lemma TelNoEmail()
    ensures LineEmails(TelLine) == [] && '部' !in TelLine
  {
    TelOver();
    NoEmail(TelLine, TelChars);
  }

  lemma TelNoWebsite()
    ensures WebsiteMatch(TelLine).None?
  {
    TelOver();
    NoWebsite(TelLine, TelChars);
  }

  // ---------------------------------------------------------------------
  // The mobile line
  // ---------------------------------------------------------------------

  /** Alternatives that do not match at `p` are passed over. */
  lemma {:induction false} LabelEndSkip(s: string, p: nat, labels: seq<string>, n: nat)
    requires n <= |labels| && forall k :: 0 <= k < n ==> !LabelAt(s, p, labels[k])
    ensures LabelEnd(s, p, labels) == LabelEnd(s, p, labels[n..])
    decreases n
  {
    if n > 0 {
      assert labels[1..][n - 1..] == labels[n..];
      LabelEndSkip(s, p, labels[1..], n - 1);
    }
  }

  /** Of the telephone labels only "Mobile" matches at the start. */
  lemma MobileLabel()
    ensures LabelEnd(MobileLine, 0, PhoneLabels) == Some(6)
  {
    MobileOver();
    NoLabel(MobileLine, 0, "Tel", 0, MobileChars);
    NoLabel(MobileLine, 0, "TEL", 0, MobileChars);
    NoLabel(MobileLine, 0, "電話", 0, MobileChars);
    LabelEndSkip(MobileLine, 0, PhoneLabels, 3);
    assert MobileLine[..6] == "Mobile";
    assert LabelAt(MobileLine, 0, "Mobile");
  }

  lemma MobileRun()
    ensures NumberAfterLabel(MobileLine, 6) == Some(MobileNumber)
  {
    assert MobileLine[8..21] == MobileNumber;
    NumberAfter(MobileLine, 6, 8, 21);
  }

  lemma MobileNumberFound()
    ensures PhoneMatch(MobileLine) == Some(MobileNumber)
  {
    MobileLabel();
    MobileRun();
    FirstAt(MobileLine, 0, PhoneAt, 0, MobileNumber);
  }

  /** The lower-cased line starts with "mobile", so the number is a mobile
      one. */
  lemma MobileKind()
    ensures PhoneKindOf(MobileLine) == Mobile
  {
    var low := Lower(MobileLine);
    assert low[..6] == "mobile";
    assert OccursAt(low, "mobile", 0);
    ContainsIff(low, "mobile");
  }

  lemma MobileNumberTrimmed()
    ensures Trim(MobileNumber) == MobileNumber
  {
    TrimAround("", MobileNumber, "");
    assert "" + MobileNumber + "" == MobileNumber;
  }

  lemma MobileNoFax()
    ensures FaxMatch(MobileLine).None? && '部' !in MobileLine
  {
    MobileOver();
    NoFax(MobileLine, MobileChars);
  }

  /** The mobile line gives one mobile number. */
  lemma MobilePhones()
    ensures LinePhones(MobileLine) == [MobilePhone]
  {
    MobileNumberFound();
    MobileKind();
    MobileNumberTrimmed();
    MobileNoFax();
  }

  lemma MobileQuietRest()
    ensures LineEmails(MobileLine) == [] && WebsiteMatch(MobileLine).None?
  {
    MobileOver();
    NoEmail(MobileLine, MobileChars);
    NoWebsite(MobileLine, MobileChars);
  }

  // ---------------------------------------------------------------------
  // The e-mail line
  // ---------------------------------------------------------------------

  /** `[a-zA-Z0-9.-]+\.[a-zA-Z]{2,}` matches from the start of the domain to
      the end of the line, the last '.' before "jp" closing the run. */
  lemma MailDomain()
    ensures DomainAt(MailLine, 14) == Some(29)
  {
    var s := MailLine;
    assert s[14..] == Domain;
    RunEndIs(s, 14, 29, IsDomainChar);
    assert TldDotAt(s, 26);
    assert LastTldDotIn(s, 15, 28) == Some(26);
    RunEndIs(s, 27, 29, IsAsciiLetter);
  }

  lemma MailAddressFound()
    ensures EmailMatch(MailLine) == Some(MailLine)
  {
    var s := MailLine;
    assert s[..13] == Mailbox && s[13] == '@';
    RunEndIs(s, 0, 13, IsLocalChar);
    MailDomain();
    assert s[0..29] == s;
    FirstAt(s, 0, EmailAt, 0, s);
  }

  /** The bare-domain alternative needs a '.' before the first character
      outside `[a-zA-Z0-9.-]`. */
  lemma NoDomainBefore(s: string, n: nat, alphabet: set<char>)
    requires n < |s| && !IsDomainChar(s[n])
    requires Over(s[..n], alphabet) && '.' !in alphabet
    ensures forall p :: 0 <= p <= n ==> DomainAt(s, p).None?
  {
    forall p | 0 <= p <= n ensures DomainAt(s, p).None? {
      var e := RunEnd(s, p, IsDomainChar);
      assert e <= n;
      forall m | p + 1 <= m <= e - 1 ensures !TldDotAt(s, m) {
        assert s[..n][m] == s[m];
      }
    }
  }

  lemma MailNoUrl()
    ensures forall p :: 0 <= p <= 14 ==> UrlEnd(MailLine, p).None? && WwwEnd(MailLine, p).None?
  {
    MailOver();
    forall p | 0 <= p <= 14 ensures UrlEnd(MailLine, p).None? && WwwEnd(MailLine, p).None? {
      NoUrlAt(MailLine, p, MailChars);
    }
  }

  /** The website pattern finds nothing in the mailbox ... */
  lemma MailWebsiteBefore()
    ensures forall p :: 0 <= p < 14 ==> WebsiteAt(MailLine, p).None?
  {
    var s := MailLine;
    MailOver();
    assert s[..13] == Mailbox && s[13] == '@';
    assert Over(s[..13], MailChars - {'.'});
    NoDomainBefore(s, 13, MailChars - {'.'});
    MailNoUrl();
  }

  /** ... and matches the domain after the '@'. */
  lemma MailWebsiteAt()
    ensures WebsiteAt(MailLine, 14) == Some(Domain)
  {
    MailNoUrl();
    MailDomain();
    assert MailLine[14..29] == Domain;
  }

  lemma MailWebsite()
    ensures WebsiteMatch(MailLine) == Some(Domain)
  {
    MailWebsiteBefore();
    MailWebsiteAt();
    FirstAt(MailLine, 0, WebsiteAt, 14, Domain);
  }

  lemma MailNoTel()
    ensures PhoneMatch(MailLine).None? && '部' !in MailLine
  {
    MailOver();
    NoPhone(MailLine, MailChars);
  }

  lemma MailNoFax()
    ensures FaxMatch(MailLine).None?
  {
    MailOver();
    NoFax(MailLine, MailChars);
  }

  lemma MailNoPhone()
    ensures LinePhones(MailLine) == [] && '部' !in MailLine
  {
    MailNoTel();
    MailNoFax();
  }

  // ---------------------------------------------------------------------
  // The website line
  // ---------------------------------------------------------------------

  lemma UrlWebsite()
    ensures WebsiteMatch(UrlLine) == Some(UrlLine)
  {
    var s := UrlLine;
    UrlOver();
    assert s[4] == ':';
    assert s[..7] == "http://";
    RunEndIs(s, 7, 22, IsNonSpace);
    assert s[0..22] == s;
    FirstAt(s, 0, WebsiteAt, 0, s);
  }

  lemma UrlNoTel()
    ensures PhoneMatch(UrlLine).None? && '部' !in UrlLine
  {
    UrlOver();
    NoPhone(UrlLine, UrlChars);
  }

  lemma UrlNoFax()
    ensures FaxMatch(UrlLine).None?
  {
    UrlOver();
    NoFax(UrlLine, UrlChars);
  }

  lemma UrlNoPhone()
    ensures LinePhones(UrlLine) == [] && '部' !in UrlLine
  {
    UrlNoTel();
    UrlNoFax();
  }

  lemma UrlNoEmail()
    ensures LineEmails(UrlLine) == []
  {
    UrlOver();
    NoEmail(UrlLine, UrlChars);
  }

  // ---------------------------------------------------------------------
  // The parsed card
  // ---------------------------------------------------------------------

  const WorkPhone: PhoneFound := PhoneFound("勤務先電話", WorkNumber, Work)
  const FaxPhone: PhoneFound := PhoneFound("FAX", FaxNumber, Fax)
  const MobilePhone: PhoneFound := PhoneFound("携帯電話", MobileNumber, Mobile)
  const MailEntry: EmailFound := EmailFound("メール", MailLine, WorkEmail)

  // The walk over a ten-line card is first worked out for arbitrary lines
  // l0 .. l9 that classify like the sample's; the sample lines are put in
  // only at the end. (Facts about a literal line met through a sequence
  // index are evaluated afresh and cost far more.)

  /** A map over ten lines, written out. */
  lemma MapTen<T>(lines: seq<string>, F: string -> T, per: seq<T>,
                  l0: string, l1: string, l2: string, l3: string, l4: string,
                  l5: string, l6: string, l7: string, l8: string, l9: string)
    requires lines == [l0, l1, l2, l3, l4, l5, l6, l7, l8, l9]
    requires |per| == |lines| && forall k :: 0 <= k < |lines| ==> per[k] == F(lines[k])
    ensures per == [F(l0), F(l1), F(l2), F(l3), F(l4), F(l5), F(l6), F(l7), F(l8), F(l9)]
  {
  }

  /** The second of ten lines is the first to satisfy `P`. */
  lemma SecondOfTen(lines: seq<string>, P: string -> bool,
                    l0: string, l1: string, l2: string, l3: string, l4: string,
                    l5: string, l6: string, l7: string, l8: string, l9: string)
    requires lines == [l0, l1, l2, l3, l4, l5, l6, l7, l8, l9]
    requires !P(l0) && P(l1)
    ensures FirstIndex(lines, P) == 1 && |lines| == 10 && lines[1] == l1
  {
    FirstIndexButUnique(lines, P, -1, 1);
  }

  /** Of ten lines, the fourth is the first to satisfy `P`, whatever line
      beyond the ten is skipped. */
  lemma FourthOfTen(lines: seq<string>, P: string -> bool, skip: int,
                    l0: string, l1: string, l2: string, l3: string, l4: string,
                    l5: string, l6: string, l7: string, l8: string, l9: string)
    requires lines == [l0, l1, l2, l3, l4, l5, l6, l7, l8, l9] && skip >= 10
    requires !P(l0) && !P(l1) && !P(l2) && P(l3)
    ensures FirstIndexBut(lines, P, skip) == 3 && |lines| == 10 && lines[3] == l3
  {
    FirstIndexButUnique(lines, P, skip, 3);
  }

  lemma FifthOfTen(lines: seq<string>, P: string -> bool,
                   l0: string, l1: string, l2: string, l3: string, l4: string,
                   l5: string, l6: string, l7: string, l8: string, l9: string)
    requires lines == [l0, l1, l2, l3, l4, l5, l6, l7, l8, l9]
    requires !P(l0) && !P(l1) && !P(l2) && !P(l3) && P(l4)
    ensures FirstIndex(lines, P) == 4 && |lines| == 10 && lines[4] == l4
  {
    FirstIndexButUnique(lines, P, -1, 4);
  }

  lemma NoneOfTen(lines: seq<string>, P: string -> bool,
                  l0: string, l1: string, l2: string, l3: string, l4: string,
                  l5: string, l6: string, l7: string, l8: string, l9: string)
    requires lines == [l0, l1, l2, l3, l4, l5, l6, l7, l8, l9]
    requires !P(l0) && !P(l1) && !P(l2) && !P(l3) && !P(l4)
    requires !P(l5) && !P(l6) && !P(l7) && !P(l8) && !P(l9)
    ensures FirstIndex(lines, P) == 10 && |lines| == 10
  {
    FirstIndexButUnique(lines, P, -1, 10);
  }

  /** Flattening lists that are all empty. */
  lemma {:induction false} FlattenNone<T>(xss: seq<seq<T>>)
    requires forall k :: 0 <= k < |xss| ==> xss[k] == []
    ensures Flatten(xss) == []
    decreases |xss|
  {
    if xss != [] {
      FlattenNone(xss[1..]);
    }
  }

  /** Flattening lists of which only the one at `i` may be non-empty. */
  lemma {:induction false} FlattenOne<T>(xss: seq<seq<T>>, i: nat)
    requires i < |xss|
    requires forall k :: 0 <= k < |xss| && k != i ==> xss[k] == []
    ensures Flatten(xss) == xss[i]
    decreases i
  {
    if i == 0 {
      FlattenNone(xss[1..]);
    } else {
      FlattenOne(xss[1..], i - 1);
    }
  }

  /** Flattening lists of which only those at `i` and `j` may be non-empty. */
  lemma {:induction false} FlattenTwo<T>(xss: seq<seq<T>>, i: nat, j: nat)
    requires i < j < |xss|
    requires forall k :: 0 <= k < |xss| && k != i && k != j ==> xss[k] == []
    ensures Flatten(xss) == xss[i] + xss[j]
    decreases i
  {
    if i == 0 {
      FlattenOne(xss[1..], j - 1);
    } else {
      FlattenTwo(xss[1..], i - 1, j - 1);
    }
  }

  /** Lines without a website match leave the list empty. */
  lemma {:induction false} NonesFold(ms: seq<Option<string>>)
    requires forall i :: 0 <= i < |ms| ==> ms[i].None?
    ensures WebsitesFoldAsWritten(ms) == []
    decreases |ms|
  {
    if ms != [] {
      NonesFold(ms[..|ms| - 1]);
    }
  }

  /** Eight lines without a website, then two website matches. */
  lemma TwoWebsites(m8: Option<string>, m9: Option<string>)
    ensures WebsitesFoldAsWritten([None, None, None, None, None, None, None, None, m8, m9])
      == WebsiteStepAsWritten(WebsiteStepAsWritten([], m8), m9)
  {
    var ms := [None, None, None, None, None, None, None, None, m8, m9];
    assert ms[..9][..8] == ms[..8];
    NonesFold(ms[..8]);
  }

  /** The lists `F` gives the ten lines, flattened, when only the seventh
      and eighth lines give any. */
  lemma PickTwo<T>(lines: seq<string>, F: string -> seq<T>, per: seq<seq<T>>,
                   l0: string, l1: string, l2: string, l3: string, l4: string,
                   l5: string, l6: string, l7: string, l8: string, l9: string)
    requires lines == [l0, l1, l2, l3, l4, l5, l6, l7, l8, l9]
    requires |per| == |lines| && forall k :: 0 <= k < |lines| ==> per[k] == F(lines[k])
    requires F(l0) == [] && F(l1) == [] && F(l2) == [] && F(l3) == [] && F(l4) == []
    requires F(l5) == [] && F(l8) == [] && F(l9) == []
    ensures Flatten(per) == F(l6) + F(l7)
  {
    MapTen(lines, F, per, l0, l1, l2, l3, l4, l5, l6, l7, l8, l9);
    FlattenTwo(per, 6, 7);
  }

  /** The same when only the ninth line gives any. */
  lemma PickOne<T>(lines: seq<string>, F: string -> seq<T>, per: seq<seq<T>>,
                   l0: string, l1: string, l2: string, l3: string, l4: string,
                   l5: string, l6: string, l7: string, l8: string, l9: string)
    requires lines == [l0, l1, l2, l3, l4, l5, l6, l7, l8, l9]
    requires |per| == |lines| && forall k :: 0 <= k < |lines| ==> per[k] == F(lines[k])
    requires F(l0) == [] && F(l1) == [] && F(l2) == [] && F(l3) == [] && F(l4) == []
    requires F(l5) == [] && F(l6) == [] && F(l7) == [] && F(l9) == []
    ensures Flatten(per) == F(l8)
  {
    MapTen(lines, F, per, l0, l1, l2, l3, l4, l5, l6, l7, l8, l9);
    FlattenOne(per, 8);
  }

  /** The second line is the company when it is the first company line. */
  lemma CardCompany(text: string, l0: string, l1: string, l2: string, l3: string, l4: string,
                    l5: string, l6: string, l7: string, l8: string, l9: string, imageUri: Option<string>, ids: nat -> string, now: int)
    requires Lines(text) == [l0, l1, l2, l3, l4, l5, l6, l7, l8, l9]
    requires !IsCompanyName(l0) && IsCompanyName(l1)
    ensures var c := ParseBusinessCardText(text, imageUri, ids, now);
      c.company == l1
  {
    var lines := Lines(text);
    SecondOfTen(lines, IsCompanyName, l0, l1, l2, l3, l4, l5, l6, l7, l8, l9);
    ParseCompany(text, imageUri, ids, now);
  }

  /** Without a department line, the fourth line is the position when it is
      the first position line. */
  lemma CardRoles(text: string, l0: string, l1: string, l2: string, l3: string, l4: string,
                  l5: string, l6: string, l7: string, l8: string, l9: string, imageUri: Option<string>, ids: nat -> string, now: int)
    requires Lines(text) == [l0, l1, l2, l3, l4, l5, l6, l7, l8, l9]
    requires !IsPosition(l0) && !IsPosition(l1) && !IsPosition(l2) && IsPosition(l3)
    requires !IsDepartmentLine(l0) && !IsDepartmentLine(l1) && !IsDepartmentLine(l2)
    requires !IsDepartmentLine(l3) && !IsDepartmentLine(l4) && !IsDepartmentLine(l5)
    requires !IsDepartmentLine(l6) && !IsDepartmentLine(l7) && !IsDepartmentLine(l8)
    requires !IsDepartmentLine(l9)
    ensures var c := ParseBusinessCardText(text, imageUri, ids, now);
      c.department == "" && c.position == l3
  {
    var lines := Lines(text);
    NoneOfTen(lines, IsDepartmentLine, l0, l1, l2, l3, l4, l5, l6, l7, l8, l9);
    FourthOfTen(lines, IsPosition, 10, l0, l1, l2, l3, l4, l5, l6, l7, l8, l9);
    ParseRoles(text, imageUri, ids, now);
  }

  /** The address comes from the fifth line when it is the first address
      line. */
  lemma CardAddress(text: string, l0: string, l1: string, l2: string, l3: string, l4: string,
                    l5: string, l6: string, l7: string, l8: string, l9: string, imageUri: Option<string>, ids: nat -> string, now: int)
    requires Lines(text) == [l0, l1, l2, l3, l4, l5, l6, l7, l8, l9]
    requires !IsAddressLine(l0) && !IsAddressLine(l1) && !IsAddressLine(l2) && !IsAddressLine(l3)
    requires IsAddressLine(l4)
    ensures var c := ParseBusinessCardText(text, imageUri, ids, now);
      |c.addresses| == 1 && AddressFrom(c.addresses[0], AddressOf(l4))
  {
    var lines := Lines(text);
    FifthOfTen(lines, IsAddressLine, l0, l1, l2, l3, l4, l5, l6, l7, l8, l9);
    AddressAtFifth(text, imageUri, ids, now);
  }

  /** The address of a text whose first address line is the fifth. */
  lemma AddressAtFifth(text: string, imageUri: Option<string>, ids: nat -> string, now: int)
    requires 4 < |Lines(text)| && FirstIndex(Lines(text), IsAddressLine) == 4
    ensures var c := ParseBusinessCardText(text, imageUri, ids, now);
      |c.addresses| == 1 && AddressFrom(c.addresses[0], AddressOf(Lines(text)[4]))
  {
    ParseAddress(text, imageUri, ids, now);
  }

  /** When only the seventh and eighth lines give phone entries, the phones
      are theirs, in that order. */
  lemma CardPhones(text: string, l0: string, l1: string, l2: string, l3: string, l4: string,
                   l5: string, l6: string, l7: string, l8: string, l9: string, imageUri: Option<string>, ids: nat -> string, now: int)
    requires Lines(text) == [l0, l1, l2, l3, l4, l5, l6, l7, l8, l9]
    requires LinePhones(l0) == [] && LinePhones(l1) == [] && LinePhones(l2) == []
    requires LinePhones(l3) == [] && LinePhones(l4) == [] && LinePhones(l5) == []
    requires LinePhones(l8) == [] && LinePhones(l9) == []
    ensures var c := ParseBusinessCardText(text, imageUri, ids, now);
      PhoneFinds(c.phones) == LinePhones(l6) + LinePhones(l7)
  {
    var lines := Lines(text);
    PickTwo(lines, LinePhones, PhonesPerLine(lines), l0, l1, l2, l3, l4, l5, l6, l7, l8, l9);
    ParsePhones(text, imageUri, ids, now);
  }

  /** When only the ninth line gives an e-mail entry, the e-mails are its. */
  lemma CardEmails(text: string, l0: string, l1: string, l2: string, l3: string, l4: string,
                   l5: string, l6: string, l7: string, l8: string, l9: string, imageUri: Option<string>, ids: nat -> string, now: int)
    requires Lines(text) == [l0, l1, l2, l3, l4, l5, l6, l7, l8, l9]
    requires LineEmails(l0) == [] && LineEmails(l1) == [] && LineEmails(l2) == []
    requires LineEmails(l3) == [] && LineEmails(l4) == [] && LineEmails(l5) == []
    requires LineEmails(l6) == [] && LineEmails(l7) == [] && LineEmails(l9) == []
    ensures var c := ParseBusinessCardText(text, imageUri, ids, now);
      EmailFinds(c.emails) == LineEmails(l8)
  {
    var lines := Lines(text);
    PickOne(lines, LineEmails, EmailsPerLine(lines), l0, l1, l2, l3, l4, l5, l6, l7, l8, l9);
    ParseEmails(text, imageUri, ids, now);
  }

  /** When the first eight lines have no website match, the websites are
      those of the last two lines, each added unless already stored. */
  lemma CardWebsites(text: string, l0: string, l1: string, l2: string, l3: string, l4: string,
                     l5: string, l6: string, l7: string, l8: string, l9: string, imageUri: Option<string>, ids: nat -> string, now: int)
    requires Lines(text) == [l0, l1, l2, l3, l4, l5, l6, l7, l8, l9]
    requires WebsiteMatch(l0).None? && WebsiteMatch(l1).None? && WebsiteMatch(l2).None?
    requires WebsiteMatch(l3).None? && WebsiteMatch(l4).None? && WebsiteMatch(l5).None?
    requires WebsiteMatch(l6).None? && WebsiteMatch(l7).None?
    ensures var c := ParseBusinessCardText(text, imageUri, ids, now);
      c.websites == WebsiteStepAsWritten(WebsiteStepAsWritten([], WebsiteMatch(l8)), WebsiteMatch(l9))
  {
    var lines := Lines(text);
    MapTen(lines, WebsiteMatch, WebsiteMatches(lines), l0, l1, l2, l3, l4, l5, l6, l7, l8, l9);
    TwoWebsites(WebsiteMatch(l8), WebsiteMatch(l9));
    ParseWebsitesFold(text, imageUri, ids, now);
  }

  // ---------------------------------------------------------------------
  // The sample card parsed
  // ---------------------------------------------------------------------

  lemma MockName(imageUri: Option<string>, ids: nat -> string, now: int)
    ensures ParseBusinessCardText(MockText, imageUri, ids, now).name == NameLine
  {
    MockLines();
    ParseName(MockText, imageUri, ids, now);
  }

  lemma MockCompany(imageUri: Option<string>, ids: nat -> string, now: int)
    ensures ParseBusinessCardText(MockText, imageUri, ids, now).company == CompanyLine
  {
    MockLines();
    NameNotCompany();
    CompanyIsCompany();
    CardCompany(MockText, NameLine, CompanyLine, DivisionLine, TitleLine, PostalLine, StreetLine, TelLine, MobileLine, MailLine, UrlLine, imageUri, ids, now);
  }

  /** The only line with a '部' is the division line, which has no position
      keyword, so no line is a department line. */
  lemma NoDepartmentLine()
    ensures !IsDepartmentLine(NameLine) && !IsDepartmentLine(CompanyLine) && !IsDepartmentLine(DivisionLine)
    ensures !IsDepartmentLine(TitleLine) && !IsDepartmentLine(PostalLine) && !IsDepartmentLine(StreetLine)
    ensures !IsDepartmentLine(TelLine) && !IsDepartmentLine(MobileLine) && !IsDepartmentLine(MailLine)
    ensures !IsDepartmentLine(UrlLine)
  {
    NameNotAddress();
    CompanyNotAddress();
    DivisionNotPosition();
    TitleNotAddress();
    PostalQuiet();
    StreetNoFax();
    TelNoEmail();
    MobileNoFax();
    MailNoTel();
    UrlNoTel();
  }

  /** "輸入国内事業部" is no department line, and the title line is the
      position. */
  lemma MockRoles(imageUri: Option<string>, ids: nat -> string, now: int)
    ensures var c := ParseBusinessCardText(MockText, imageUri, ids, now);
      c.department == "" && c.position == TitleLine
  {
    MockLines();
    NameNotPosition();
    CompanyNotPosition();
    DivisionNotPosition();
    TitleIsPosition();
    NoDepartmentLine();
    CardRoles(MockText, NameLine, CompanyLine, DivisionLine, TitleLine, PostalLine, StreetLine, TelLine, MobileLine, MailLine, UrlLine, imageUri, ids, now);
  }

  /** The postal-code line is the first address line, so the stored address
      is that line with its code; the street line that follows is not used. */
  lemma MockAddress(imageUri: Option<string>, ids: nat -> string, now: int)
    ensures var c := ParseBusinessCardText(MockText, imageUri, ids, now);
      |c.addresses| == 1 && AddressFrom(c.addresses[0], AddressFound(PostalLine, PostalCode))
  {
    MockLines();
    NameNotAddress();
    CompanyNotAddress();
    DivisionNotAddress();
    TitleNotAddress();
    PostalAddress();
    CardAddress(MockText, NameLine, CompanyLine, DivisionLine, TitleLine, PostalLine, StreetLine, TelLine, MobileLine, MailLine, UrlLine, imageUri, ids, now);
  }

  lemma HeadNoPhones()
    ensures LinePhones(NameLine) == [] && LinePhones(CompanyLine) == [] && LinePhones(DivisionLine) == []
    ensures LinePhones(TitleLine) == [] && LinePhones(PostalLine) == [] && LinePhones(StreetLine) == []
  {
    NameQuiet();
    CompanyQuiet();
    DivisionQuiet();
    TitleQuiet();
    PostalQuiet();
    StreetQuiet();
  }

  /** The telephone line gives the work number and the fax number, the
      mobile line the mobile number. */
  lemma MockPhones(imageUri: Option<string>, ids: nat -> string, now: int)
    ensures PhoneFinds(ParseBusinessCardText(MockText, imageUri, ids, now).phones)
      == [WorkPhone, FaxPhone, MobilePhone]
  {
    MockPhoneLines(imageUri, ids, now);
    TelMobilePhones(PhoneFinds(ParseBusinessCardText(MockText, imageUri, ids, now).phones));
  }

  lemma TelMobilePhones(x: seq<PhoneFound>)
    requires x == LinePhones(TelLine) + LinePhones(MobileLine)
    ensures x == [WorkPhone, FaxPhone, MobilePhone]
  {
    TelPhones();
    MobilePhones();
    JoinThree(x, LinePhones(TelLine), LinePhones(MobileLine), WorkPhone, FaxPhone, MobilePhone);
  }

  lemma JoinThree<T>(x: seq<T>, a: seq<T>, b: seq<T>, p: T, q: T, r: T)
    requires x == a + b && a == [p, q] && b == [r]
    ensures x == [p, q, r]
  {
  }

  lemma MockPhoneLines(imageUri: Option<string>, ids: nat -> string, now: int)
    ensures PhoneFinds(ParseBusinessCardText(MockText, imageUri, ids, now).phones)
      == LinePhones(TelLine) + LinePhones(MobileLine)
  {
    MockLines();
    HeadNoPhones();
    MailNoPhone();
    UrlNoPhone();
    CardPhones(MockText, NameLine, CompanyLine, DivisionLine, TitleLine, PostalLine, StreetLine, TelLine, MobileLine, MailLine, UrlLine, imageUri, ids, now);
  }

  lemma HeadNoEmails()
    ensures LineEmails(NameLine) == [] && LineEmails(CompanyLine) == [] && LineEmails(DivisionLine) == []
    ensures LineEmails(TitleLine) == [] && LineEmails(PostalLine) == [] && LineEmails(StreetLine) == []
  {
    NameQuiet();
    CompanyQuiet();
    DivisionQuiet();
    TitleQuiet();
    PostalQuiet();
    StreetQuiet();
  }

  lemma MockEmails(imageUri: Option<string>, ids: nat -> string, now: int)
    ensures EmailFinds(ParseBusinessCardText(MockText, imageUri, ids, now).emails) == [MailEntry]
  {
    MockLines();
    HeadNoEmails();
    TelNoEmail();
    MobileQuietRest();
    UrlNoEmail();
    MailAddressFound();
    CardEmails(MockText, NameLine, CompanyLine, DivisionLine, TitleLine, PostalLine, StreetLine, TelLine, MobileLine, MailLine, UrlLine, imageUri, ids, now);
  }

  lemma HeadNoWebsites()
    ensures WebsiteMatch(NameLine).None? && WebsiteMatch(CompanyLine).None? && WebsiteMatch(DivisionLine).None?
    ensures WebsiteMatch(TitleLine).None? && WebsiteMatch(PostalLine).None? && WebsiteMatch(StreetLine).None?
  {
    NameQuiet();
    CompanyQuiet();
    DivisionQuiet();
    TitleQuiet();
    PostalQuiet();
    StreetQuiet();
  }

  /** Only the e-mail and website lines, the last two, offer websites. */
  lemma MockWebsiteLines(imageUri: Option<string>, ids: nat -> string, now: int)
    ensures ParseBusinessCardText(MockText, imageUri, ids, now).websites
      == WebsiteStepAsWritten(WebsiteStepAsWritten([], WebsiteMatch(MailLine)), WebsiteMatch(UrlLine))
  {
    MockLines();
    HeadNoWebsites();
    TelNoWebsite();
    MobileQuietRest();
    CardWebsites(MockText, NameLine, CompanyLine, DivisionLine, TitleLine, PostalLine, StreetLine, TelLine, MobileLine, MailLine, UrlLine, imageUri, ids, now);
  }

  /** The domain of the e-mail address is stored with "http://" in front;
      the website line then gives the same string and adds nothing. */
  lemma MailUrlWebsites(x: seq<string>)
    requires x == WebsiteStepAsWritten(WebsiteStepAsWritten([], WebsiteMatch(MailLine)), WebsiteMatch(UrlLine))
    ensures x == [UrlLine]
  {
    MailWebsite();
    UrlWebsite();
    DomainBare();
    SameWebsiteTwice(Domain, UrlLine);
  }

  lemma DomainBare()
    ensures !StartsWith(Domain, "http")
  {
    assert Domain[3] == '-';
  }

  /** A bare domain followed by the same domain with "http://" in front
      leaves one website: the second match is the stored form of the first,
      so even the raw comparison of the code finds it. */
  lemma SameWebsiteTwice(d: string, u: string)
    requires !StartsWith(d, "http") && u == "http://" + d
    ensures WebsiteStepAsWritten(WebsiteStepAsWritten([], Some(d)), Some(u)) == [u]
  {
    assert u[..4] == "http";
  }

  lemma MockWebsites(imageUri: Option<string>, ids: nat -> string, now: int)
    ensures ParseBusinessCardText(MockText, imageUri, ids, now).websites == [UrlLine]
  {
    MockWebsiteLines(imageUri, ids, now);
    MailUrlWebsites(ParseBusinessCardText(MockText, imageUri, ids, now).websites);
  }

  /** What `parseBusinessCardText` makes of the sample card. */
  lemma MockCardParse(imageUri: Option<string>, ids: nat -> string, now: int)
    ensures var c := ParseBusinessCardText(MockText, imageUri, ids, now);
      && c.name == NameLine
      && c.company == CompanyLine
      && c.department == ""
      && c.position == TitleLine
      && PhoneFinds(c.phones) == [WorkPhone, FaxPhone, MobilePhone]
      && EmailFinds(c.emails) == [MailEntry]
      && |c.addresses| == 1
      && AddressFrom(c.addresses[0], AddressFound(PostalLine, PostalCode))
      && c.websites == [UrlLine]
  {
    MockName(imageUri, ids, now);
    MockCompany(imageUri, ids, now);
    MockRoles(imageUri, ids, now);
    MockPhones(imageUri, ids, now);
    MockEmails(imageUri, ids, now);
    MockAddress(imageUri, ids, now);
    MockWebsites(imageUri, ids, now);
  }
}
