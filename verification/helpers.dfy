/** The formatting and validation helpers of src/utils/helpers.ts. */
module Helpers {
  import opened Types
  import opened Text

  // ---------------------------------------------------------------------
  // formatPhoneNumber
  // ---------------------------------------------------------------------

  predicate AllDigits(s: string)
  {
    forall i :: 0 <= i < |s| ==> IsDigit(s[i])
  }

  /** The digit string `d` with a '-' inserted before index `a` and before
      index `b`: what `replace(/(\d{x})(\d{4})(\d{4})/, '$1-$2-$3')` makes of
      an all-digit string of exactly that length. */
  function Grouped(d: string, a: nat, b: nat): (r: string)
    requires AllDigits(d) && 0 < a < b < |d|
    ensures Digits(r) == d
    ensures |r| == |d| + 2 && r[a] == '-' && r[b + 1] == '-'
    ensures forall k :: 0 <= k < |r| && k != a && k != b + 1 ==> IsDigit(r[k])
  {
    var x, y, z := d[..a], d[a..b], d[b..];
    assert AllDigits(x) && AllDigits(y) && AllDigits(z);
    GroupedDigits(x, y, z);
    assert x + y + z == d;
    GroupedShape(d, a, b);
    x + "-" + y + "-" + z
  }

  lemma GroupedDigits(x: string, y: string, z: string)
    requires AllDigits(x) && AllDigits(y) && AllDigits(z)
    ensures Digits(x + "-" + y + "-" + z) == x + y + z
  {
    DashJoinDigits(x, y);
    DashJoinDigits(x + "-" + y, z);
    DigitsOfDigits(x);
    DigitsOfDigits(y);
    DigitsOfDigits(z);
  }

  /** Joining with '-' adds no digit. */
  lemma DashJoinDigits(x: string, y: string)
    ensures Digits(x + "-" + y) == Digits(x) + Digits(y)
  {
    DigitsAppend(x + "-", y);
    DashDigits(x);
  }

  /** A '-' adds no digit. */
  lemma DashDigits(s: string)
    ensures Digits(s + "-") == Digits(s)
  {
    DigitsAppend(s, "-");
    assert Digits("-") == "";
  }

  lemma GroupedShape(d: string, a: nat, b: nat)
    requires AllDigits(d) && 0 < a < b < |d|
    ensures var r := d[..a] + "-" + d[a..b] + "-" + d[b..];
      |r| == |d| + 2 && r[a] == '-' && r[b + 1] == '-'
      && forall k :: 0 <= k < |r| && k != a && k != b + 1 ==> IsDigit(r[k])
  {
    var r := d[..a] + "-" + d[a..b] + "-" + d[b..];
    forall k | 0 <= k < |r| && k != a && k != b + 1 ensures IsDigit(r[k]) {
      if k < a {
        assert r[k] == d[k];
      } else if k < b + 1 {
        assert r[k] == d[k - 1];
      } else {
        assert r[k] == d[k - 2];
      }
    }
  }

  /** A string made of `d`'s digits with a '-' at `i` and at `j` and digits
      everywhere else. */
  predicate DashedAt(r: string, d: string, i: nat, j: nat)
  {
    && Digits(r) == d
    && |r| == |d| + 2 && i < j < |r| && r[i] == '-' && r[j] == '-'
    && forall k :: 0 <= k < |r| && k != i && k != j ==> IsDigit(r[k])
  }

  /** `formatPhoneNumber`: eleven digits starting with '0' become
      ddd-dddd-dddd, ten digits starting with "03" become dd-dddd-dddd, and
      anything else is returned as it was. The branch for "090" in the source
      can never be reached, because "090" already starts with '0'. */
  function FormatPhoneNumber(phone: string): (r: string)
    ensures Digits(r) == Digits(phone)
    ensures var d := Digits(phone);
      |d| == 11 && d[0] == '0' ==> DashedAt(r, d, 3, 8)
    ensures var d := Digits(phone);
      |d| == 10 && StartsWith(d, "03") ==> DashedAt(r, d, 2, 7)
    ensures var d := Digits(phone);
      !(|d| == 11 && d[0] == '0') && !(|d| == 10 && StartsWith(d, "03")) ==> r == phone
  {
    var cleaned := Digits(phone);
    if |cleaned| == 11 && cleaned[0] == '0' then Grouped(cleaned, 3, 7)
    else if |cleaned| == 10 && StartsWith(cleaned, "03") then Grouped(cleaned, 2, 6)
    else phone
  }

  /** `formatPhoneNumber` with its three branches in the order of the
      source, the "090" mobile branch included. */
  function FormatPhoneNumberAsWritten(phone: string): (r: string)
    ensures Digits(r) == Digits(phone)
  {
    var cleaned := Digits(phone);
    if |cleaned| == 11 && StartsWith(cleaned, "0") then Grouped(cleaned, 3, 7)
    else if |cleaned| == 11 && StartsWith(cleaned, "090") then Grouped(cleaned, 3, 7)
    else if |cleaned| == 10 && StartsWith(cleaned, "03") then Grouped(cleaned, 2, 6)
    else phone
  }

  /** The mobile branch adds nothing: every "090" number already starts
      with '0', so the two-branch formatter gives the same result on every
      input. */
  lemma MobileBranchSubsumed(phone: string)
    ensures FormatPhoneNumberAsWritten(phone) == FormatPhoneNumber(phone)
  {
    var d := Digits(phone);
    if |d| == 11 && StartsWith(d, "090") {
      assert d[..3][0] == d[0];
    }
    assert StartsWith(d, "0") <==> d != [] && d[0] == '0' by {
      if d != [] {
        assert d[..1] == [d[0]];
      }
    }
  }

  /** Formatting a formatted number changes nothing: the output has the same
      digits, so it takes the same branch and gets the same grouping. */
  lemma FormatIdempotent(phone: string)
    ensures FormatPhoneNumber(FormatPhoneNumber(phone)) == FormatPhoneNumber(phone)
  {
  }

  // ---------------------------------------------------------------------
  // isValidPhoneNumber
  // ---------------------------------------------------------------------

  /** The class `[\d\-\+\(\)\s]`. */
  predicate IsPhoneChar(c: char)
  {
    IsDigit(c) || c == '-' || c == '+' || c == '(' || c == ')' || IsSpace(c)
  }

  /** What `isValidPhoneNumber` accepts: a non-empty string of phone
      characters with at least ten digits. */
  predicate ValidPhoneNumber(phone: string)
  {
    phone != [] && (forall i :: 0 <= i < |phone| ==> IsPhoneChar(phone[i])) && |Digits(phone)| >= 10
  }

  lemma DigitsSnoc(s: string, c: char)
    ensures |Digits(s + [c])| == |Digits(s)| + (if IsDigit(c) then 1 else 0)
  {
    DigitsAppend(s, [c]);
  }

  /** `isValidPhoneNumber`, as one pass that checks the class and counts the
      digits. */
  method IsValidPhoneNumber(phone: string) returns (ok: bool)
    ensures ok <==> ValidPhoneNumber(phone)
  {
    var digits := 0;
    var i := 0;
    while i < |phone|
      invariant 0 <= i <= |phone|
      invariant forall k :: 0 <= k < i ==> IsPhoneChar(phone[k])
      invariant digits == |Digits(phone[..i])|
    {
      if !IsPhoneChar(phone[i]) {
        return false;
      }
      DigitsSnoc(phone[..i], phone[i]);
      assert phone[..i + 1] == phone[..i] + [phone[i]];
      if IsDigit(phone[i]) {
        digits := digits + 1;
      }
      i := i + 1;
    }
    assert phone[..i] == phone;
    ok := phone != [] && digits >= 10;
  }

  /** Formatting keeps a valid number valid: it only inserts '-'. */
  lemma FormatKeepsValid(phone: string)
    requires ValidPhoneNumber(phone)
    ensures ValidPhoneNumber(FormatPhoneNumber(phone))
  {
    var r := FormatPhoneNumber(phone);
    assert |Digits(r)| <= |r|;
  }

  // ---------------------------------------------------------------------
  // isValidEmail
  // ---------------------------------------------------------------------

  /** The strings `/^[^\s@]+@[^\s@]+\.[^\s@]+$/` accepts, with the split
      points named: the one '@' at `at` with a non-empty local part before
      it, and a '.' at `dot` with non-empty text on both sides of it in the
      domain. No character is white space. */
  predicate EmailSplit(s: string, at: int, dot: int)
  {
    && 0 < at && at + 1 < dot < |s| - 1
    && s[at] == '@' && s[dot] == '.'
    && forall j :: 0 <= j < |s| ==> !IsSpace(s[j]) && (s[j] == '@' ==> j == at)
  }

  ghost predicate EmailPattern(s: string)
  {
    exists at, dot :: EmailSplit(s, at, dot)
  }

  /** `isValidEmail`, as one left-to-right pass: it remembers the first '@'
      and the first '.' that has a domain character before it, and fails on
      white space or a second '@'. */
  method IsValidEmail(email: string) returns (ok: bool)
    ensures ok <==> EmailPattern(email)
  {
    var at := -1;
    var dot := -1;
    var i := 0;
    while i < |email|
      invariant 0 <= i <= |email|
      invariant forall j :: 0 <= j < i ==> !IsSpace(email[j])
      invariant at == -1 ==> forall j :: 0 <= j < i ==> email[j] != '@'
      invariant at != -1 ==> 0 <= at < i && email[at] == '@'
      invariant at != -1 ==> forall j :: 0 <= j < i && email[j] == '@' ==> j == at
      invariant dot != -1 ==> at != -1 && at + 1 < dot < i && email[dot] == '.'
      invariant dot == -1 && at != -1 ==> forall j :: at + 1 < j < i ==> email[j] != '.'
      invariant dot != -1 ==> forall j :: at + 1 < j < dot ==> email[j] != '.'
    {
      var c := email[i];
      if IsSpace(c) {
        assert !EmailPattern(email);
        return false;
      }
      if c == '@' {
        if at != -1 {
          SecondAt(email, at, i);
          return false;
        }
        at := i;
      } else if c == '.' && at != -1 && at + 1 < i && dot == -1 {
        dot := i;
      }
      i := i + 1;
    }
    ok := 0 < at && dot != -1 && dot < |email| - 1;
    if ok {
      assert EmailSplit(email, at, dot);
    } else {
      NoSplit(email, at, dot);
    }
  }

  /** Two '@' characters rule the pattern out. */
  lemma SecondAt(s: string, i: nat, j: nat)
    requires i < j < |s| && s[i] == '@' && s[j] == '@'
    ensures !EmailPattern(s)
  {
    if at, dot :| EmailSplit(s, at, dot) {
      assert i == at && j == at;
    }
  }

  /** What the pass knows at the end rules the pattern out when its check
      fails. */
  lemma NoSplit(s: string, at: int, dot: int)
    requires at == -1 ==> forall j :: 0 <= j < |s| ==> s[j] != '@'
    requires at != -1 ==> 0 <= at < |s| && s[at] == '@'
    requires dot != -1 ==> at != -1 && at + 1 < dot < |s|
    requires dot == -1 && at != -1 ==> forall j :: at + 1 < j < |s| ==> s[j] != '.'
    requires dot != -1 ==> forall j :: at + 1 < j < dot ==> s[j] != '.'
    requires !(0 < at && dot != -1 && dot < |s| - 1)
    ensures !EmailPattern(s)
  {
  }

  // ---------------------------------------------------------------------
  // getInitials
  // ---------------------------------------------------------------------

  /** `part.charAt(0)`: the first character, or "" for an empty part. */
  function CharAt0(part: string): (r: string)
    ensures |r| <= 1 && (r == "" <==> part == "")
    ensures r != "" ==> r[0] == part[0]
  {
    if part == "" then "" else [part[0]]
  }

  function FirstChars(parts: seq<string>): (r: seq<string>)
    ensures |r| == |parts| && forall i :: 0 <= i < |parts| ==> r[i] == CharAt0(parts[i])
  {
    seq(|parts|, i requires 0 <= i < |parts| => CharAt0(parts[i]))
  }

  /** `getInitials`: the first character of every space-separated part,
      upper-cased, cut to two characters. */
  function GetInitials(name: string): (r: string)
    ensures |r| <= 2
    ensures |r| == if |WordStarts(name, true)| < 2 then |WordStarts(name, true)| else 2
    ensures r == Upper(WordStarts(name, true))[..|r|]
  {
    var joined := Join(FirstChars(Split(name, ' ')), "");
    var upper := Upper(joined);
    InitialsAreWordStarts(name);
    if |upper| <= 2 then upper else upper[..2]
  }

  /** The characters of `s` that start a word: a non-space character at the
      start or right after a space. `atStart` says whether the character
      before `s` was a space (or there was none). */
  function WordStarts(s: string, atStart: bool): (r: string)
    ensures |r| <= |s|
    ensures forall k :: 0 <= k < |r| ==> r[k] != ' '
  {
    if s == [] then ""
    else (if s[0] != ' ' && atStart then [s[0]] else "") + WordStarts(s[1..], s[0] == ' ')
  }

  lemma JoinFirstCharsCons(parts: seq<string>)
    requires parts != []
    ensures Join(FirstChars(parts), "") == CharAt0(parts[0]) + Join(FirstChars(parts[1..]), "")
  {
    var fc := FirstChars(parts);
    if |parts| == 1 {
      assert FirstChars(parts[1..]) == [];
    } else {
      assert fc[1..] == FirstChars(parts[1..]);
    }
  }

  /** Joining the first characters of the parts of a split on ' ' gives the
      word-start characters. For `atStart == false`, the first part is
      already under way and does not count. */
  lemma {:induction false} WordStartsSplit(s: string, atStart: bool)
    ensures WordStarts(s, atStart) ==
      if atStart then Join(FirstChars(Split(s, ' ')), "")
      else Join(FirstChars(Split(s, ' ')[1..]), "")
    decreases |s|
  {
    var parts := Split(s, ' ');
    if s == [] {
      assert parts == [""];
      assert FirstChars(parts) == [""];
      assert parts[1..] == [];
    } else {
      var rest := Split(s[1..], ' ');
      if s[0] == ' ' {
        assert parts == [""] + rest;
        assert parts[1..] == rest;
        WordStartsSplit(s[1..], true);
        if atStart {
          JoinFirstCharsCons(parts);
        }
      } else {
        assert parts == [[s[0]] + rest[0]] + rest[1..];
        assert parts[1..] == rest[1..];
        WordStartsSplit(s[1..], false);
        if atStart {
          JoinFirstCharsCons(parts);
        }
      }
    }
  }

  lemma InitialsAreWordStarts(name: string)
    ensures Join(FirstChars(Split(name, ' ')), "") == WordStarts(name, true)
  {
    WordStartsSplit(name, true);
  }

  // ---------------------------------------------------------------------
  // getContactDisplayName, isContactComplete, isEmpty
  // ---------------------------------------------------------------------

  const UntitledContact: string := "無題の連絡先"

  /** `getContactDisplayName`: the first available of name, company, first
      e-mail, first phone number, else "無題の連絡先". */
  function GetContactDisplayName(c: Contact): (r: string)
    ensures c.name != "" ==> r == c.name
    ensures c.name == "" && c.company != "" ==> r == c.company
    ensures c.name == "" && c.company == "" && c.emails != [] ==> r == c.emails[0].email
    ensures c.name == "" && c.company == "" && c.emails == [] && c.phones != [] ==> r == c.phones[0].number
    ensures c.name == "" && c.company == "" && c.emails == [] && c.phones == [] ==> r == UntitledContact
  {
    if c.name != "" then c.name
    else if c.company != "" then c.company
    else if |c.emails| > 0 then c.emails[0].email
    else if |c.phones| > 0 then c.phones[0].number
    else UntitledContact
  }

  /** `isContactComplete`: a name, a company, and a phone or an e-mail. A
      complete contact is displayed under its name. */
  function IsContactComplete(c: Contact): (r: bool)
    ensures r ==> GetContactDisplayName(c) == c.name
  {
    c.name != "" && c.company != "" && (|c.phones| > 0 || |c.emails| > 0)
  }

  /** `isEmpty`: the string is empty or only white space. */
  function IsEmpty(s: string): (r: bool)
    ensures r <==> AllSpace(s)
  {
    s == "" || |Trim(s)| == 0
  }

  // ---------------------------------------------------------------------
  // sortContactsByDate
  // ---------------------------------------------------------------------

  /** `a` may come before `b`: by creation date, newest first unless
      `ascending`. */
  predicate DateBefore(a: Contact, b: Contact, ascending: bool)
  {
    if ascending then a.createdAt <= b.createdAt else a.createdAt >= b.createdAt
  }

  predicate SortedByDate(cs: seq<Contact>, ascending: bool)
  {
    forall i, j :: 0 <= i < j < |cs| ==> DateBefore(cs[i], cs[j], ascending)
  }

  /** Insert `c` in front of the first element it may precede. */
  function InsertByDate(c: Contact, sorted: seq<Contact>, ascending: bool): (r: seq<Contact>)
    ensures multiset(r) == multiset(sorted) + multiset{c}
    ensures |r| == |sorted| + 1 && (r[0] == c || (sorted != [] && r[0] == sorted[0]))
    decreases |sorted|
  {
    if sorted == [] || DateBefore(c, sorted[0], ascending) then
      [c] + sorted
    else
      var rest := InsertByDate(c, sorted[1..], ascending);
      assert multiset(sorted) == multiset{sorted[0]} + multiset(sorted[1..]) by {
        assert sorted == [sorted[0]] + sorted[1..];
      }
      assert multiset([sorted[0]] + rest) == multiset{sorted[0]} + multiset(rest);
      [sorted[0]] + rest
  }

  /** Inserting into a sorted list keeps it sorted. */
  lemma {:induction false} InsertSorted(c: Contact, sorted: seq<Contact>, ascending: bool)
    requires SortedByDate(sorted, ascending)
    ensures SortedByDate(InsertByDate(c, sorted, ascending), ascending)
    decreases |sorted|
  {
    if sorted == [] || DateBefore(c, sorted[0], ascending) {
      ConsSorted(c, sorted, ascending);
    } else {
      var rest := InsertByDate(c, sorted[1..], ascending);
      InsertSorted(c, sorted[1..], ascending);
      assert DateBefore(sorted[0], rest[0], ascending);
      ConsSorted(sorted[0], rest, ascending);
    }
  }

  /** An element that may precede the head of a sorted list may be put in
      front of it. */
  lemma ConsSorted(x: Contact, rest: seq<Contact>, ascending: bool)
    requires SortedByDate(rest, ascending)
    requires rest != [] ==> DateBefore(x, rest[0], ascending)
    ensures SortedByDate([x] + rest, ascending)
  {
    var r := [x] + rest;
    forall i, j | 0 <= i < j < |r| ensures DateBefore(r[i], r[j], ascending) {
      if i == 0 {
        assert r[j] == rest[j - 1];
        if j > 1 {
          assert DateBefore(rest[0], rest[j - 1], ascending);
        }
      } else {
        assert r[i] == rest[i - 1] && r[j] == rest[j - 1];
      }
    }
  }

  /** `sortContactsByDate`: a copy of the contacts ordered by creation date,
      newest first, or oldest first when `ascending`. */
  function SortContactsByDate(contacts: seq<Contact>, ascending: bool): (r: seq<Contact>)
    ensures multiset(r) == multiset(contacts)
    ensures SortedByDate(r, ascending)
    decreases |contacts|
  {
    if contacts == [] then []
    else
      var sorted := SortContactsByDate(contacts[1..], ascending);
      assert contacts == [contacts[0]] + contacts[1..];
      InsertSorted(contacts[0], sorted, ascending);
      InsertByDate(contacts[0], sorted, ascending)
  }
}
