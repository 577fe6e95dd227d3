/** The business-card text parser, `parseBusinessCardText` in
    src/services/ocrService.ts, with its keyword classifiers.

    The source mutates one contact record while it walks the lines; here the
    walk is a fold (`Scan`) of a pure `Step` over the lines, threading a
    `Draft` of the fields that the walk changes. The id generator is a
    caller-supplied stream `ids`: the contact takes `ids(0)` and every
    appended phone, e-mail and address entry takes the next unused index, in
    the order the source calls `generateId`. */
module CardParser {
  import opened Types
  import opened Text
  import opened Patterns

  // ---------------------------------------------------------------------
  // Classifiers
  // ---------------------------------------------------------------------

  /** The members of the character class `[ひらがなカタカナ]`: seven literal
      characters, not the Hiragana or Katakana blocks. */
  const PersonNameChars: string := "ひらがなカタカナ"

  const CompanyKeywords: seq<string> :=
    ["株式会社", "有限会社", "合同会社", "合資会社", "企業", "会社", "Co.", "Ltd.", "Inc.", "Corp."]

  const PositionKeywords: seq<string> :=
    ["社長", "専務", "常務", "取締役", "部長", "課長", "係長", "主任", "担当",
     "マネージャー", "リーダー", "チーフ", "ディレクター", "代表", "営業", "企画"]

  /** `isPersonName`: at most ten UTF-16 code units and one of the seven class
      characters. */
  predicate IsPersonName(text: string)
  {
    Utf16Length(text) <= 10 && exists i :: 0 <= i < |text| && text[i] in PersonNameChars
  }

  predicate IsCompanyName(text: string)
  {
    ContainsAny(text, CompanyKeywords)
  }

  predicate IsPosition(text: string)
  {
    ContainsAny(text, PositionKeywords)
  }

  /** A person name is at most ten characters long; for a text without
      characters beyond U+FFFF, where every character is one UTF-16 code unit,
      it is exactly a text of at most ten characters holding one of the seven
      class characters. */
  lemma PersonNameLength(text: string)
    ensures IsPersonName(text) ==> |text| <= 10
    ensures (forall i :: 0 <= i < |text| ==> text[i] as int <= 0xFFFF) ==>
              (IsPersonName(text) <==>
                 |text| <= 10 && exists i :: 0 <= i < |text| && text[i] in PersonNameChars)
  {
    if forall i :: 0 <= i < |text| ==> text[i] as int <= 0xFFFF {
      Utf16LengthBmp(text);
    }
  }

  /** `isCompanyName` holds exactly when one of the company keywords occurs
      somewhere in the text, so a company line is at least two characters. */
  lemma CompanyNameIff(text: string)
    ensures IsCompanyName(text) <==>
              exists k, i :: 0 <= k < |CompanyKeywords| && OccursAt(text, CompanyKeywords[k], i)
    ensures IsCompanyName(text) ==> |text| >= 2
  {
    ContainsAnyIff(text, CompanyKeywords);
    if IsCompanyName(text) {
      var k, i :| 0 <= k < |CompanyKeywords| && OccursAt(text, CompanyKeywords[k], i);
      assert |CompanyKeywords[k]| >= 2;
    }
  }

  /** `isPosition` holds exactly when one of the position keywords occurs
      somewhere in the text, so a position line is at least two characters. */
  lemma PositionIff(text: string)
    ensures IsPosition(text) <==>
              exists k, i :: 0 <= k < |PositionKeywords| && OccursAt(text, PositionKeywords[k], i)
    ensures IsPosition(text) ==> |text| >= 2
  {
    ContainsAnyIff(text, PositionKeywords);
    if IsPosition(text) {
      var k, i :| 0 <= k < |PositionKeywords| && OccursAt(text, PositionKeywords[k], i);
      assert |PositionKeywords[k]| >= 2;
    }
  }

  /** A position line that names a department: it also contains '部'. */
  predicate IsDepartmentLine(text: string)
  {
    IsPosition(text) && '部' in text
  }

  /** A line that offers an address: a postal code, or one of 都, 県, 区, 市. */
  predicate IsAddressLine(line: string)
  {
    PostalMatch(line).Some? || '都' in line || '県' in line || '区' in line || '市' in line
  }

  // ---------------------------------------------------------------------
  // Lines
  // ---------------------------------------------------------------------

  predicate IsTrimmedLine(line: string)
  {
    line != [] && '\n' !in line && !IsSpace(line[0]) && !IsSpace(line[|line| - 1])
  }

  function TrimmedNonEmpty(pieces: seq<string>): (r: seq<string>)
    requires forall k :: 0 <= k < |pieces| ==> '\n' !in pieces[k]
    ensures |r| <= |pieces|
    ensures forall k :: 0 <= k < |r| ==> IsTrimmedLine(r[k])
  {
    if pieces == [] then []
    else
      var t := Trim(pieces[0]);
      TrimChars(pieces[0]);
      (if t == [] then [] else [t]) + TrimmedNonEmpty(pieces[1..])
  }

  /** `text.split('\n').map(line => line.trim()).filter(line => line.length > 0)` */
  function Lines(text: string): (r: seq<string>)
    ensures forall k :: 0 <= k < |r| ==> IsTrimmedLine(r[k])
  {
    TrimmedNonEmpty(Split(text, '\n'))
  }

  // ---------------------------------------------------------------------
  // What one line contributes
  // ---------------------------------------------------------------------

  /** A phone entry before it is given an id. */
  datatype PhoneFound = PhoneFound(displayLabel: string, number: string, kind: PhoneType)

  /** An e-mail entry before it is given an id. */
  datatype EmailFound = EmailFound(displayLabel: string, email: string, kind: EmailType)

  /** An address entry before it is given an id. */
  datatype AddressFound = AddressFound(street: string, postalCode: string)

  /** The kind of a telephone match is decided by the whole lower-cased line. */
  function PhoneKindOf(line: string): (k: PhoneType)
    ensures k == Mobile <==> Contains(Lower(line), "mobile") || Contains(Lower(line), "携帯")
    ensures k != Mobile ==> k == Work
  {
    if Contains(Lower(line), "mobile") || Contains(Lower(line), "携帯") then Mobile else Work
  }

  function PhoneLabelFor(kind: PhoneType): string
  {
    if kind == Mobile then "携帯電話" else "勤務先電話"
  }

  /** A stored number: only number characters, and no space at either end. */
  predicate IsTrimmedNumber(n: string)
  {
    (forall i :: 0 <= i < |n| ==> IsNumberChar(n[i]))
    && (n == [] || (!IsSpace(n[0]) && !IsSpace(n[|n| - 1])))
  }

  predicate WellFormedPhone(f: PhoneFound)
  {
    && IsTrimmedNumber(f.number)
    && (|| (f.kind == Mobile && f.displayLabel == "携帯電話")
        || (f.kind == Work && f.displayLabel == "勤務先電話")
        || (f.kind == Fax && f.displayLabel == "FAX"))
  }

  lemma TrimNumber(raw: string)
    requires forall i :: 0 <= i < |raw| ==> IsNumberChar(raw[i])
    ensures IsTrimmedNumber(Trim(raw))
  {
    var t := Trim(raw);
    var a := TrimOffset(raw);
    forall i | 0 <= i < |t| ensures IsNumberChar(t[i]) {
      assert t[i] == raw[a + i];
    }
  }

  /** The telephone entry of a line, if its telephone pattern matches. */
  function TelEntries(line: string): (r: seq<PhoneFound>)
    ensures |r| <= 1 && (r != [] <==> PhoneMatch(line).Some?)
    ensures r != [] ==> r[0] == PhoneFound(PhoneLabelFor(PhoneKindOf(line)), Trim(PhoneMatch(line).value), PhoneKindOf(line))
    ensures r != [] ==> WellFormedPhone(r[0]) && r[0].kind != Fax
  {
    match PhoneMatch(line)
    case None => []
    case Some(raw) =>
      var kind := PhoneKindOf(line);
      TrimNumber(raw);
      [PhoneFound(PhoneLabelFor(kind), Trim(raw), kind)]
  }

  /** The fax entry of a line, if its fax pattern matches. */
  function FaxEntries(line: string): (r: seq<PhoneFound>)
    ensures |r| <= 1 && (r != [] <==> FaxMatch(line).Some?)
    ensures r != [] ==> r[0] == PhoneFound("FAX", Trim(FaxMatch(line).value), Fax)
    ensures r != [] ==> WellFormedPhone(r[0])
  {
    match FaxMatch(line)
    case None => []
    case Some(raw) =>
      TrimNumber(raw);
      [PhoneFound("FAX", Trim(raw), Fax)]
  }

  /** A telephone entry followed by a fax entry, each optional. */
  lemma TelThenFax(tel: seq<PhoneFound>, fax: seq<PhoneFound>)
    requires |tel| <= 1 && (tel != [] ==> WellFormedPhone(tel[0]) && tel[0].kind != Fax)
    requires |fax| <= 1 && (fax != [] ==> WellFormedPhone(fax[0]) && fax[0].kind == Fax)
    ensures var r := tel + fax;
      && |r| <= 2
      && (forall k :: 0 <= k < |r| ==> WellFormedPhone(r[k]))
      && (|r| == 2 ==> r[0].kind != Fax && r[1].kind == Fax)
      && (tel != [] <==> (r != [] && r[0].kind != Fax))
      && (fax != [] <==> (r != [] && r[|r| - 1].kind == Fax))
  {
    var r := tel + fax;
    if tel == [] {
      assert r == fax;
    } else if fax == [] {
      assert r == tel;
    } else {
      assert r == [tel[0], fax[0]];
    }
  }

  /** The phone entries one line appends: at most one telephone entry, then
      at most one fax entry. */
  function LinePhones(line: string): (r: seq<PhoneFound>)
    ensures |r| <= 2
    ensures forall k :: 0 <= k < |r| ==> WellFormedPhone(r[k])
    ensures |r| == 2 ==> r[0].kind != Fax && r[1].kind == Fax
    ensures PhoneMatch(line).Some? <==> (r != [] && r[0].kind != Fax)
    ensures FaxMatch(line).Some? <==> (r != [] && r[|r| - 1].kind == Fax)
  {
    var tel := TelEntries(line);
    var fax := FaxEntries(line);
    TelThenFax(tel, fax);
    tel + fax
  }

  /** The e-mail entries one line appends: at most its e-mail match. */
  function LineEmails(line: string): (r: seq<EmailFound>)
    ensures |r| <= 1 && (r != [] <==> EmailMatch(line).Some?)
    ensures r != [] ==> r[0] == EmailFound("メール", EmailMatch(line).value, WorkEmail)
  {
    match EmailMatch(line)
    case None => []
    case Some(e) => [EmailFound("メール", e, WorkEmail)]
  }

  /** The address a line offers: the line without its marked postal code (or
      the whole line, when nothing is left), and the postal code if any. */
  function AddressOf(line: string): (a: AddressFound)
    ensures a.postalCode == "" || PostalShaped(a.postalCode)
    ensures line != "" ==> a.street != ""
  {
    var postal := (match PostalMatch(line) case Some(p) => p case None => "");
    var rest := Trim(RemovePostalMark(line));
    AddressFound(if rest == "" then line else rest, postal)
  }

  /** The stored form of a website match: "http://" is put in front unless
      the match already starts with "http". */
  function StoredWebsite(w: string): (u: string)
    ensures StartsWith(u, "http")
    ensures StartsWith(w, "http") ==> u == w
    ensures !StartsWith(w, "http") ==> u == "http://" + w
  {
    if StartsWith(w, "http") then w
    else
      assert ("http://" + w)[..4] == "http";
      "http://" + w
  }

  lemma BareDomain()
    ensures StoredWebsite("example.com") == "http://example.com"
  {
    assert "example.com"[..4][0] == 'e';
  }

  /** The website list after one line with website match `m`, as the source
      writes it: the match is compared with the list BEFORE the "http://"
      prefix is added, so a bare domain seen twice is stored twice. */
  function WebsiteStepAsWritten(websites: seq<string>, m: Option<string>): (r: seq<string>)
    ensures |websites| <= |r| <= |websites| + 1 && r[..|websites|] == websites
    ensures |r| == |websites| + 1 ==> m.Some? && r[|websites|] == StoredWebsite(m.value)
    ensures |r| == |websites| + 1 <==> m.Some? && m.value !in websites
  {
    match m
    case None => websites
    case Some(w) =>
      if w in websites then websites
      else websites + [StoredWebsite(w)]
  }

  /** The same bare domain on two lines gives two equal entries. */
  lemma WebsiteDuplicateAsWritten()
    ensures WebsiteStepAsWritten(WebsiteStepAsWritten([], Some("example.com")), Some("example.com"))
      == ["http://example.com", "http://example.com"]
  {
    BareDomain();
    var once := WebsiteStepAsWritten([], Some("example.com"));
    assert once == ["http://example.com"];
    assert "example.com" !in once by {
      assert |"example.com"| != |"http://example.com"|;
    }
  }

  /** The website list after one line with website match `m`, comparing the
      stored form, which is what keeps the list free of duplicates. */
  function WebsiteStep(websites: seq<string>, m: Option<string>): (r: seq<string>)
    ensures |websites| <= |r| <= |websites| + 1 && r[..|websites|] == websites
    ensures |r| == |websites| + 1 ==> m.Some? && r[|websites|] == StoredWebsite(m.value)
    ensures |r| == |websites| + 1 <==> m.Some? && StoredWebsite(m.value) !in websites
    ensures Distinct(websites) ==> Distinct(r)
  {
    match m
    case None => websites
    case Some(w) =>
      var u := StoredWebsite(w);
      if u in websites then websites
      else websites + [u]
  }

  /** With the stored form compared, the same bare domain twice is kept once. */
  lemma WebsiteOnce()
    ensures WebsiteStep(WebsiteStep([], Some("example.com")), Some("example.com")) == ["http://example.com"]
  {
    BareDomain();
  }

  /** The website match of each line. */
  function WebsiteMatches(lines: seq<string>): (r: seq<Option<string>>)
    ensures |r| == |lines| && forall i :: 0 <= i < |lines| ==> r[i] == WebsiteMatch(lines[i])
  {
    seq(|lines|, i requires 0 <= i < |lines| => WebsiteMatch(lines[i]))
  }

  /** The website list the code builds from the matches `ms` of the lines,
      in line order. */
  function WebsitesFoldAsWritten(ms: seq<Option<string>>): (r: seq<string>)
    ensures |r| <= |ms|
  {
    if ms == [] then [] else WebsiteStepAsWritten(WebsitesFoldAsWritten(ms[..|ms| - 1]), ms[|ms| - 1])
  }

  /** The website list of the corrected step: every entry starts with
      "http" and none is stored twice. */
  function WebsitesFold(ms: seq<Option<string>>): (r: seq<string>)
    ensures |r| <= |ms| && Distinct(r)
    ensures forall k :: 0 <= k < |r| ==> StartsWith(r[k], "http")
  {
    if ms == [] then []
    else
      var w := WebsitesFold(ms[..|ms| - 1]);
      var r := WebsiteStep(w, ms[|ms| - 1]);
      assert forall k :: 0 <= k < |w| ==> r[k] == w[k] by {
        assert r[..|w|] == w;
      }
      r
  }

  // ---------------------------------------------------------------------
  // The fold
  // ---------------------------------------------------------------------

  /** Everything the body of the walk learns from one line on its own. */
  datatype LineFacts = LineFacts(
    personName: bool,
    company: bool,
    position: bool,
    department: bool,
    phones: seq<PhoneFound>,
    emails: seq<EmailFound>,
    website: Option<string>,
    address: Option<AddressFound>)

  function Analyse(line: string): (f: LineFacts)
    ensures f.department ==> f.position
  {
    LineFacts(
      IsPersonName(line),
      IsCompanyName(line),
      IsPosition(line),
      IsDepartmentLine(line),
      LinePhones(line),
      LineEmails(line),
      WebsiteMatch(line),
      if IsAddressLine(line) then Some(AddressOf(line)) else None)
  }

  datatype Draft = Draft(
    name: string,
    company: string,
    position: string,
    department: string,
    phones: seq<ContactPhone>,
    emails: seq<ContactEmail>,
    addresses: seq<ContactAddress>,
    websites: seq<string>,
    nextId: nat)

  /** The contact id is taken first, so the entries start at index 1. */
  const EmptyDraft := Draft("", "", "", "", [], [], [], [], 1)

  function StampPhones(fs: seq<PhoneFound>, k: nat, ids: nat -> string): (r: seq<ContactPhone>)
    ensures |r| == |fs|
  {
    seq(|fs|, i requires 0 <= i < |fs| => ContactPhone(ids(k + i), fs[i].displayLabel, fs[i].number, fs[i].kind))
  }

  function StampEmails(fs: seq<EmailFound>, k: nat, ids: nat -> string): (r: seq<ContactEmail>)
    ensures |r| == |fs|
  {
    seq(|fs|, i requires 0 <= i < |fs| => ContactEmail(ids(k + i), fs[i].displayLabel, fs[i].email, fs[i].kind))
  }

  function StampAddresses(fs: seq<AddressFound>, k: nat, ids: nat -> string): (r: seq<ContactAddress>)
    ensures |r| == |fs|
  {
    seq(|fs|, i requires 0 <= i < |fs| => ContactAddress(ids(k + i), "住所", fs[i].street, "", "", fs[i].postalCode, "日本"))
  }

  /** The address entry a line adds: only the first address line of the
      walk adds one. */
  function AddressEntries(addresses: seq<ContactAddress>, offer: Option<AddressFound>): (r: seq<AddressFound>)
    ensures |r| <= 1 && (r != [] <==> addresses == [] && offer.Some?)
  {
    if addresses == [] && offer.Some? then [offer.value] else []
  }

  /** One iteration of the `forEach` body, for the line `line` at `index`
      whose facts are `f`. The entries of the line take ids in the order the
      source creates them: telephone, fax, e-mail, address. */
  function Step(d: Draft, line: string, index: nat, f: LineFacts, ids: nat -> string): Draft
  {
    var addrs := AddressEntries(d.addresses, f.address);
    Draft(
      if (index == 0 || f.personName) && d.name == "" then line else d.name,
      if f.company && d.company == "" then line else d.company,
      if f.position && !(f.department && d.department == "") && d.position == "" then line else d.position,
      if f.department && d.department == "" then line else d.department,
      d.phones + StampPhones(f.phones, d.nextId, ids),
      d.emails + StampEmails(f.emails, d.nextId + |f.phones|, ids),
      d.addresses + StampAddresses(addrs, d.nextId + |f.phones| + |f.emails|, ids),
      WebsiteStepAsWritten(d.websites, f.website),
      d.nextId + |f.phones| + |f.emails| + |addrs|)
  }

  /** The record after the walk over all of `lines`, whose facts are `facts`. */
  function Scan(lines: seq<string>, facts: seq<LineFacts>, ids: nat -> string): Draft
    requires |facts| == |lines|
  {
    if lines == [] then EmptyDraft
    else
      var n := |lines| - 1;
      Step(Scan(lines[..n], facts[..n], ids), lines[n], n, facts[n], ids)
  }

  /** The facts of every line. */
  function Analyses(lines: seq<string>): (r: seq<LineFacts>)
    ensures |r| == |lines|
  {
    seq(|lines|, i requires 0 <= i < |lines| => Analyse(lines[i]))
  }

  /** `parseBusinessCardText(text, imageUri)`, with the id generator and the
      clock passed in. */
  function ParseBusinessCardText(text: string, imageUri: Option<string>, ids: nat -> string, now: int): (c: Contact)
    ensures c.id == ids(0) && c.businessCardImage == imageUri
    ensures c.createdAt == now && c.updatedAt == now
    ensures c.notes == "" && c.tags == [] && c.socialMedia == [] && c.avatar == None
  {
    var lines := Lines(text);
    var d := Scan(lines, Analyses(lines), ids);
    Contact(
      ids(0),
      if d.name == "" && |lines| > 0 then lines[0] else d.name,
      if d.company == "" && |lines| > 1 then lines[1] else d.company,
      d.position,
      d.department,
      d.phones,
      d.emails,
      d.addresses,
      d.websites,
      [],
      "",
      None,
      imageUri,
      now,
      now,
      [])
  }

  /** The parser with the duplicate check of the website step corrected: the
      record of `ParseBusinessCardText` with its website list rebuilt by the
      corrected step. Nothing else changes, as no website takes an id. */
  function ParseBusinessCardTextCorrected(text: string, imageUri: Option<string>, ids: nat -> string, now: int): (c: Contact)
    ensures c.(websites := []) == ParseBusinessCardText(text, imageUri, ids, now).(websites := [])
    ensures |c.websites| <= |Lines(text)| && Distinct(c.websites)
    ensures forall k :: 0 <= k < |c.websites| ==> StartsWith(c.websites[k], "http")
  {
    ParseBusinessCardText(text, imageUri, ids, now).(websites := WebsitesFold(WebsiteMatches(Lines(text))))
  }
}
