/** What `parseBusinessCardText` produces, stated against reference
    definitions that do not walk the lines the way the parser does. */
module ParserFacts {
  import opened Types
  import opened Text
  import opened Patterns
  import opened CardParser

  // ---------------------------------------------------------------------
  // First-match indices
  // ---------------------------------------------------------------------

  /** The index of the first element satisfying `P` other than the one at
      `skip`, or `|xs|` when there is none. */
  function FirstIndexBut<T>(xs: seq<T>, P: T -> bool, skip: int): (i: nat)
    ensures i <= |xs|
    ensures i < |xs| ==> P(xs[i]) && i != skip
    ensures forall j :: 0 <= j < i ==> !P(xs[j]) || j == skip
    decreases |xs|
  {
    if xs == [] then 0
    else if P(xs[0]) && skip != 0 then 0
    else
      var i := FirstIndexBut(xs[1..], P, skip - 1);
      assert forall j :: 1 <= j <= i ==> xs[j] == xs[1..][j - 1];
      1 + i
  }

  /** The index of the first element satisfying `P`, or `|xs|`. */
  function FirstIndex<T>(xs: seq<T>, P: T -> bool): (i: nat)
    ensures i <= |xs|
    ensures i < |xs| ==> P(xs[i])
    ensures forall j :: 0 <= j < i ==> !P(xs[j])
  {
    FirstIndexBut(xs, P, -1)
  }

  /** The line at `i`, or "" past the end. */
  function LineOr(lines: seq<string>, i: nat): string
  {
    if i < |lines| then lines[i] else ""
  }

  /** The three properties of `FirstIndexBut` determine it. */
  lemma FirstIndexButUnique<T>(xs: seq<T>, P: T -> bool, skip: int, i: nat)
    requires i <= |xs|
    requires i < |xs| ==> P(xs[i]) && i != skip
    requires forall j :: 0 <= j < i ==> !P(xs[j]) || j == skip
    ensures i == FirstIndexBut(xs, P, skip)
  {
  }

  /** The last element can only matter when no earlier one qualified. */
  lemma {:induction false} FirstIndexButLast<T>(xs: seq<T>, P: T -> bool, skip: int)
    requires xs != []
    ensures FirstIndexBut(xs, P, skip) ==
      var n := |xs| - 1;
      var f := FirstIndexBut(xs[..n], P, skip);
      if f < n then f
      else if P(xs[n]) && skip != n then n
      else n + 1
    decreases |xs|
  {
    var n := |xs| - 1;
    FirstIndexButCons(xs, P, skip);
    if n > 0 {
      var ys := xs[..n];
      FirstIndexButCons(ys, P, skip);
      assert ys[0] == xs[0];
      if !(P(xs[0]) && skip != 0) {
        FirstIndexButLast(xs[1..], P, skip - 1);
        assert xs[1..][..n - 1] == ys[1..];
        assert xs[1..][n - 1] == xs[n];
      }
    }
  }

  lemma FirstIndexButCons<T>(xs: seq<T>, P: T -> bool, skip: int)
    requires xs != []
    ensures FirstIndexBut(xs, P, skip) ==
      if P(xs[0]) && skip != 0 then 0 else 1 + FirstIndexBut(xs[1..], P, skip - 1)
  {
  }

  /** A skip index past the end skips nothing. */
  lemma FirstIndexButSkipPast<T>(xs: seq<T>, P: T -> bool, s1: int, s2: int)
    requires s1 >= |xs| && s2 >= |xs|
    ensures FirstIndexBut(xs, P, s1) == FirstIndexBut(xs, P, s2)
  {
    FirstIndexButUnique(xs, P, s2, FirstIndexBut(xs, P, s1));
  }

  /** Two sequences whose elements agree on the predicates agree on the
      first-match index. */
  lemma FirstIndexButTransfer<T, U>(xs: seq<T>, P: T -> bool, ys: seq<U>, Q: U -> bool, skip: int)
    requires |xs| == |ys|
    requires forall i :: 0 <= i < |xs| ==> P(xs[i]) == Q(ys[i])
    ensures FirstIndexBut(xs, P, skip) == FirstIndexBut(ys, Q, skip)
  {
    FirstIndexButUnique(ys, Q, skip, FirstIndexBut(xs, P, skip));
  }

  predicate NonEmptyLines(lines: seq<string>)
  {
    forall k :: 0 <= k < |lines| ==> lines[k] != ""
  }

  // ---------------------------------------------------------------------
  // The first-wins fields of the walk
  // ---------------------------------------------------------------------

  function CompanyFact(f: LineFacts): bool { f.company }
  function PositionFact(f: LineFacts): bool { f.position }
  function DepartmentFact(f: LineFacts): bool { f.department }
  function AddressFact(f: LineFacts): bool { f.address.Some? }

  /** After the walk, the name is the first line. */
  lemma {:induction false} ScanName(lines: seq<string>, facts: seq<LineFacts>, ids: nat -> string)
    requires |facts| == |lines| && NonEmptyLines(lines)
    ensures Scan(lines, facts, ids).name == (if lines == [] then "" else lines[0])
    decreases |lines|
  {
    if lines != [] {
      var n := |lines| - 1;
      assert NonEmptyLines(lines[..n]);
      ScanName(lines[..n], facts[..n], ids);
    }
  }

  /** A first-wins field after one more line: it takes the line when the
      line qualifies and the field is still empty. */
  lemma FirstLineSnoc(prev: string, next: string, lines: seq<string>, facts: seq<LineFacts>, P: LineFacts -> bool)
    requires |facts| == |lines| && lines != [] && NonEmptyLines(lines)
    requires prev == LineOr(lines[..|lines| - 1], FirstIndex(facts[..|facts| - 1], P))
    requires next == if P(facts[|facts| - 1]) && prev == "" then lines[|lines| - 1] else prev
    ensures next == LineOr(lines, FirstIndex(facts, P))
  {
    var n := |lines| - 1;
    var fs := facts[..n];
    FirstIndexButLast(facts, P, -1);
    var f := FirstIndex(fs, P);
    if f < n {
      assert lines[..n][f] != "";
      assert LineOr(lines, f) == LineOr(lines[..n], f);
    }
  }

  /** After the walk, the company is the first company line, or "". */
  lemma {:induction false} ScanCompany(lines: seq<string>, facts: seq<LineFacts>, ids: nat -> string)
    requires |facts| == |lines| && NonEmptyLines(lines)
    ensures Scan(lines, facts, ids).company == LineOr(lines, FirstIndex(facts, CompanyFact))
    decreases |lines|
  {
    if lines != [] {
      var n := |lines| - 1;
      assert NonEmptyLines(lines[..n]);
      ScanCompany(lines[..n], facts[..n], ids);
      FirstLineSnoc(Scan(lines[..n], facts[..n], ids).company, Scan(lines, facts, ids).company, lines, facts, CompanyFact);
    }
  }

  /** After the walk, the department is the first department line, or "". */
  lemma {:induction false} ScanDepartment(lines: seq<string>, facts: seq<LineFacts>, ids: nat -> string)
    requires |facts| == |lines| && NonEmptyLines(lines)
    ensures Scan(lines, facts, ids).department == LineOr(lines, FirstIndex(facts, DepartmentFact))
    decreases |lines|
  {
    if lines != [] {
      var n := |lines| - 1;
      assert NonEmptyLines(lines[..n]);
      ScanDepartment(lines[..n], facts[..n], ids);
      FirstLineSnoc(Scan(lines[..n], facts[..n], ids).department, Scan(lines, facts, ids).department, lines, facts, DepartmentFact);
    }
  }

  /** The first `P` element other than the first `Q` element: the last
      element can only matter when no earlier one qualified. */
  lemma FirstButFirstLast<T>(xs: seq<T>, P: T -> bool, Q: T -> bool)
    requires xs != []
    ensures var n := |xs| - 1;
      var dep0 := FirstIndex(xs[..n], Q);
      var pos0 := FirstIndexBut(xs[..n], P, dep0);
      FirstIndexBut(xs, P, FirstIndex(xs, Q)) ==
        if pos0 < n then pos0
        else if P(xs[n]) && !(Q(xs[n]) && dep0 == n) then n
        else n + 1
  {
    var n := |xs| - 1;
    var dep0 := FirstIndex(xs[..n], Q);
    FirstIndexButLast(xs, Q, -1);
    var dep := FirstIndex(xs, Q);
    if dep0 == n {
      FirstIndexButSkipPast(xs[..n], P, dep0, dep);
    }
    FirstIndexButLast(xs, P, dep);
  }

  /** The position after one more line: it takes the line when the line is a
      position line, the line does not become the department, and the
      position is still empty. */
  lemma PositionSnoc(prevPos: string, prevDep: string, next: string, lines: seq<string>, facts: seq<LineFacts>)
    requires |facts| == |lines| && lines != [] && NonEmptyLines(lines)
    requires prevDep == LineOr(lines[..|lines| - 1], FirstIndex(facts[..|facts| - 1], DepartmentFact))
    requires prevPos == LineOr(lines[..|lines| - 1],
      FirstIndexBut(facts[..|facts| - 1], PositionFact, FirstIndex(facts[..|facts| - 1], DepartmentFact)))
    requires var f := facts[|facts| - 1];
      next == if f.position && !(f.department && prevDep == "") && prevPos == "" then lines[|lines| - 1] else prevPos
    ensures next == LineOr(lines, FirstIndexBut(facts, PositionFact, FirstIndex(facts, DepartmentFact)))
  {
    var n := |lines| - 1;
    var init := lines[..n];
    var fs := facts[..n];
    FirstButFirstLast(facts, PositionFact, DepartmentFact);
    var dep0 := FirstIndex(fs, DepartmentFact);
    if dep0 < n {
      assert init[dep0] != "";
    }
    var f := FirstIndexBut(fs, PositionFact, dep0);
    if f < n {
      assert init[f] != "";
      assert LineOr(lines, f) == LineOr(init, f);
    }
  }

  /** After the walk, the position is the first position line other than
      the one that became the department, or "". */
  lemma {:induction false} ScanPosition(lines: seq<string>, facts: seq<LineFacts>, ids: nat -> string)
    requires |facts| == |lines| && NonEmptyLines(lines)
    ensures Scan(lines, facts, ids).position ==
      LineOr(lines, FirstIndexBut(facts, PositionFact, FirstIndex(facts, DepartmentFact)))
    decreases |lines|
  {
    if lines != [] {
      var n := |lines| - 1;
      var d := Scan(lines[..n], facts[..n], ids);
      assert NonEmptyLines(lines[..n]);
      ScanPosition(lines[..n], facts[..n], ids);
      ScanDepartment(lines[..n], facts[..n], ids);
      PositionSnoc(d.position, d.department, Scan(lines, facts, ids).position, lines, facts);
    }
  }

  // ---------------------------------------------------------------------
  // The appended fields of the walk
  // ---------------------------------------------------------------------

  /** Every part is a sequence of at most `n` elements: the flattening has
      at most `n` elements per part. */
  lemma {:induction false} FlattenBound<T>(xss: seq<seq<T>>, n: nat)
    requires forall i :: 0 <= i < |xss| ==> |xss[i]| <= n
    ensures |Flatten(xss)| <= n * |xss|
    decreases |xss|
  {
    if xss != [] {
      var tail := xss[1..];
      forall i | 0 <= i < |tail| ensures |tail[i]| <= n {
        assert tail[i] == xss[i + 1];
      }
      FlattenBound(tail, n);
      assert n * |xss| == n + n * |tail|;
    }
  }

  /** The phone entries without their ids. */
  function PhoneFinds(ps: seq<ContactPhone>): (r: seq<PhoneFound>)
    ensures |r| == |ps|
    ensures forall k :: 0 <= k < |ps| ==> r[k] == PhoneFound(ps[k].displayLabel, ps[k].number, ps[k].kind)
  {
    seq(|ps|, k requires 0 <= k < |ps| => PhoneFound(ps[k].displayLabel, ps[k].number, ps[k].kind))
  }

  /** The e-mail entries without their ids. */
  function EmailFinds(es: seq<ContactEmail>): (r: seq<EmailFound>)
    ensures |r| == |es|
    ensures forall k :: 0 <= k < |es| ==> r[k] == EmailFound(es[k].displayLabel, es[k].email, es[k].kind)
  {
    seq(|es|, k requires 0 <= k < |es| => EmailFound(es[k].displayLabel, es[k].email, es[k].kind))
  }

  lemma EmailFindsStamp(fs: seq<EmailFound>, k: nat, ids: nat -> string)
    ensures EmailFinds(StampEmails(fs, k, ids)) == fs
  {
  }

  lemma EmailFindsConcat(a: seq<ContactEmail>, b: seq<ContactEmail>)
    ensures EmailFinds(a + b) == EmailFinds(a) + EmailFinds(b)
  {
  }

  function PhonesOf(facts: seq<LineFacts>): (r: seq<seq<PhoneFound>>)
    ensures |r| == |facts| && forall i :: 0 <= i < |facts| ==> r[i] == facts[i].phones
  {
    seq(|facts|, i requires 0 <= i < |facts| => facts[i].phones)
  }

  function EmailsOf(facts: seq<LineFacts>): (r: seq<seq<EmailFound>>)
    ensures |r| == |facts| && forall i :: 0 <= i < |facts| ==> r[i] == facts[i].emails
  {
    seq(|facts|, i requires 0 <= i < |facts| => facts[i].emails)
  }

  lemma PhonesOfSnoc(facts: seq<LineFacts>)
    requires facts != []
    ensures PhonesOf(facts) == PhonesOf(facts[..|facts| - 1]) + [facts[|facts| - 1].phones]
  {
  }

  lemma EmailsOfSnoc(facts: seq<LineFacts>)
    requires facts != []
    ensures EmailsOf(facts) == EmailsOf(facts[..|facts| - 1]) + [facts[|facts| - 1].emails]
  {
  }

  /** The phones of the walk are the phone entries of each line, in line
      order. */
  lemma {:induction false} ScanPhones(lines: seq<string>, facts: seq<LineFacts>, ids: nat -> string)
    requires |facts| == |lines|
    ensures PhoneFinds(Scan(lines, facts, ids).phones) == Flatten(PhonesOf(facts))
    decreases |lines|
  {
    if lines != [] {
      var n := |lines| - 1;
      var fs := facts[..n];
      ScanPhones(lines[..n], fs, ids);
      StepPhones(Scan(lines[..n], fs, ids), lines[n], n, facts[n], ids);
      PhonesOfSnoc(facts);
      FlattenSnoc(PhonesOf(fs), facts[n].phones);
    }
  }

  /** One step appends the phone entries of its line. */
  lemma StepPhones(d: Draft, line: string, index: nat, f: LineFacts, ids: nat -> string)
    ensures PhoneFinds(Step(d, line, index, f, ids).phones) == PhoneFinds(d.phones) + f.phones
  {
    var added := StampPhones(f.phones, d.nextId, ids);
    assert PhoneFinds(added) == f.phones;
    assert PhoneFinds(d.phones + added) == PhoneFinds(d.phones) + PhoneFinds(added);
  }

  /** The e-mails of the walk are the e-mail entries of each line, in line
      order. */
  lemma {:induction false} ScanEmails(lines: seq<string>, facts: seq<LineFacts>, ids: nat -> string)
    requires |facts| == |lines|
    ensures EmailFinds(Scan(lines, facts, ids).emails) == Flatten(EmailsOf(facts))
    decreases |lines|
  {
    if lines != [] {
      var n := |lines| - 1;
      var fs := facts[..n];
      ScanEmails(lines[..n], fs, ids);
      StepEmails(Scan(lines[..n], fs, ids), lines[n], n, facts[n], ids);
      EmailsOfSnoc(facts);
      FlattenSnoc(EmailsOf(fs), facts[n].emails);
    }
  }

  /** One step appends the e-mail entries of its line. */
  lemma StepEmails(d: Draft, line: string, index: nat, f: LineFacts, ids: nat -> string)
    ensures EmailFinds(Step(d, line, index, f, ids).emails) == EmailFinds(d.emails) + f.emails
  {
    var added := StampEmails(f.emails, d.nextId + |f.phones|, ids);
    EmailFindsStamp(f.emails, d.nextId + |f.phones|, ids);
    EmailFindsConcat(d.emails, added);
  }

  /** `a` is the stored form of the address `v`. */
  predicate AddressFrom(a: ContactAddress, v: AddressFound)
  {
    a.displayLabel == "住所" && a.street == v.street && a.city == "" && a.state == ""
    && a.postalCode == v.postalCode && a.country == "日本"
  }

  /** One step adds an address only while there is none, and only when its
      line offers one. */
  lemma StepAddresses(d: Draft, line: string, index: nat, f: LineFacts, ids: nat -> string)
    ensures d.addresses != [] || f.address.None? ==> Step(d, line, index, f, ids).addresses == d.addresses
    ensures d.addresses == [] && f.address.Some? ==>
      |Step(d, line, index, f, ids).addresses| == 1 && AddressFrom(Step(d, line, index, f, ids).addresses[0], f.address.value)
  {
    var addrs := AddressEntries(d.addresses, f.address);
    var k := d.nextId + |f.phones| + |f.emails|;
    assert Step(d, line, index, f, ids).addresses == d.addresses + StampAddresses(addrs, k, ids);
    if addrs == [] {
      assert d.addresses + StampAddresses(addrs, k, ids) == d.addresses;
    }
  }

  /** The address list after a walk keeps at most the first address offered. */
  predicate FirstAddressKept(a: seq<ContactAddress>, facts: seq<LineFacts>)
  {
    var i := FirstIndex(facts, AddressFact);
    && |a| <= 1
    && (a == [] <==> i == |facts|)
    && (i < |facts| ==> AddressFrom(a[0], facts[i].address.value))
  }

  /** One more line keeps `FirstAddressKept`. */
  lemma FirstAddressKeptSnoc(prev: seq<ContactAddress>, next: seq<ContactAddress>, facts: seq<LineFacts>)
    requires facts != [] && FirstAddressKept(prev, facts[..|facts| - 1])
    requires prev != [] || facts[|facts| - 1].address.None? ==> next == prev
    requires prev == [] && facts[|facts| - 1].address.Some? ==>
      |next| == 1 && AddressFrom(next[0], facts[|facts| - 1].address.value)
    ensures FirstAddressKept(next, facts)
  {
    var n := |facts| - 1;
    var fs := facts[..n];
    FirstIndexButLast(facts, AddressFact, -1);
    var i := FirstIndex(fs, AddressFact);
    if i < n {
      assert facts[i] == fs[i];
    }
  }

  /** The walk keeps at most one address: the one offered by the first line
      that offers one. */
  lemma {:induction false} ScanAddresses(lines: seq<string>, facts: seq<LineFacts>, ids: nat -> string)
    requires |facts| == |lines|
    ensures FirstAddressKept(Scan(lines, facts, ids).addresses, facts)
    decreases |lines|
  {
    if lines != [] {
      var n := |lines| - 1;
      var d := Scan(lines[..n], facts[..n], ids);
      ScanAddresses(lines[..n], facts[..n], ids);
      StepAddresses(d, lines[n], n, facts[n], ids);
      FirstAddressKeptSnoc(d.addresses, Scan(lines, facts, ids).addresses, facts);
    }
  }

  predicate AllHttp(websites: seq<string>)
  {
    forall k :: 0 <= k < |websites| ==> StartsWith(websites[k], "http")
  }

  /** A website step keeps every entry starting with "http". */
  lemma WebsiteStepHttp(websites: seq<string>, m: Option<string>)
    requires AllHttp(websites)
    ensures AllHttp(WebsiteStepAsWritten(websites, m))
  {
    var w := WebsiteStepAsWritten(websites, m);
    forall k | 0 <= k < |w| ensures StartsWith(w[k], "http") {
      if k < |websites| {
        assert w[k] == w[..|websites|][k];
      }
    }
  }

  /** Every website of the walk starts with "http", and every line adds at
      most one. */
  lemma {:induction false} ScanWebsites(lines: seq<string>, facts: seq<LineFacts>, ids: nat -> string)
    requires |facts| == |lines|
    ensures var w := Scan(lines, facts, ids).websites;
      |w| <= |lines| && AllHttp(w)
    decreases |lines|
  {
    if lines != [] {
      var n := |lines| - 1;
      var fs := facts[..n];
      ScanWebsites(lines[..n], fs, ids);
      WebsiteStepHttp(Scan(lines[..n], fs, ids).websites, facts[n].website);
    }
  }

  // ---------------------------------------------------------------------
  // Lines
  // ---------------------------------------------------------------------

  predicate AllBlank(pieces: seq<string>)
  {
    forall k :: 0 <= k < |pieces| ==> AllSpace(pieces[k])
  }

  /** A piece of a split contributes no line exactly when it is blank. */
  lemma {:induction false} TrimmedNonEmptyIff(pieces: seq<string>)
    requires forall k :: 0 <= k < |pieces| ==> '\n' !in pieces[k]
    ensures TrimmedNonEmpty(pieces) == [] <==> AllBlank(pieces)
    decreases |pieces|
  {
    if pieces != [] {
      var t := Trim(pieces[0]);
      var tail := pieces[1..];
      TrimmedNonEmptyIff(tail);
      assert TrimmedNonEmpty(pieces) == (if t == [] then [] else [t]) + TrimmedNonEmpty(tail);
      assert t == [] <==> AllSpace(pieces[0]);
      if forall k :: 0 <= k < |tail| ==> AllSpace(tail[k]) {
        forall k | 1 <= k < |pieces| ensures AllSpace(pieces[k]) {
          assert pieces[k] == tail[k - 1];
        }
      }
    }
  }

  lemma AllSpaceConcat(a: string, b: string)
    ensures AllSpace(a + b) <==> AllSpace(a) && AllSpace(b)
  {
    if AllSpace(a) && AllSpace(b) {
      forall i | 0 <= i < |a + b| ensures IsSpace((a + b)[i]) {
        if i < |a| {
          assert (a + b)[i] == a[i];
        } else {
          assert (a + b)[i] == b[i - |a|];
        }
      }
    }
    if AllSpace(a + b) {
      forall i | 0 <= i < |a| ensures IsSpace(a[i]) {
        assert a[i] == (a + b)[i];
      }
      forall i | 0 <= i < |b| ensures IsSpace(b[i]) {
        assert b[i] == (a + b)[|a| + i];
      }
    }
  }

  /** Joining with a blank separator gives a blank string exactly when every
      part is blank. */
  lemma {:induction false} JoinAllSpace(parts: seq<string>, sep: string)
    requires |parts| >= 1 && AllSpace(sep)
    ensures AllSpace(Join(parts, sep)) <==> AllBlank(parts)
    decreases |parts|
  {
    var tail := parts[1..];
    assert AllBlank(parts) <==> AllSpace(parts[0]) && AllBlank(tail) by {
      if AllSpace(parts[0]) && AllBlank(tail) {
        forall k | 1 <= k < |parts| ensures AllSpace(parts[k]) {
          assert parts[k] == tail[k - 1];
        }
      }
    }
    if |parts| > 1 {
      JoinAllSpace(tail, sep);
      AllSpaceConcat(parts[0] + sep, Join(tail, sep));
      AllSpaceConcat(parts[0], sep);
    }
  }

  /** The pieces of a split on a white-space separator are all blank exactly
      when the whole string is. */
  lemma SplitAllSpace(s: string, sep: char)
    requires IsSpace(sep)
    ensures AllBlank(Split(s, sep)) <==> AllSpace(s)
  {
    JoinSplit(s, sep);
    JoinAllSpace(Split(s, sep), [sep]);
  }

  /** A text has no lines exactly when it is all white space. */
  lemma LinesEmptyIff(text: string)
    ensures Lines(text) == [] <==> AllSpace(text)
  {
    var pieces := Split(text, '\n');
    assert Lines(text) == TrimmedNonEmpty(pieces);
    TrimmedNonEmptyIff(pieces);
    SplitAllSpace(text, '\n');
  }

  lemma LinesNonEmpty(text: string)
    ensures NonEmptyLines(Lines(text))
  {
  }


  // ---------------------------------------------------------------------
  // The parsed record
  // ---------------------------------------------------------------------

  lemma AnalysesCompany(lines: seq<string>)
    ensures forall i :: 0 <= i < |lines| ==> CompanyFact(Analyses(lines)[i]) == IsCompanyName(lines[i])
  {
  }

  lemma AnalysesPosition(lines: seq<string>)
    ensures forall i :: 0 <= i < |lines| ==> PositionFact(Analyses(lines)[i]) == IsPosition(lines[i])
  {
  }

  lemma AnalysesDepartment(lines: seq<string>)
    ensures forall i :: 0 <= i < |lines| ==> DepartmentFact(Analyses(lines)[i]) == IsDepartmentLine(lines[i])
  {
  }

  lemma AnalysesAddress(lines: seq<string>)
    ensures forall i :: 0 <= i < |lines| ==> AddressFact(Analyses(lines)[i]) == IsAddressLine(lines[i])
    ensures forall i :: 0 <= i < |lines| && IsAddressLine(lines[i]) ==> Analyses(lines)[i].address.value == AddressOf(lines[i])
  {
  }

  lemma AnalysesPhones(lines: seq<string>)
    ensures PhonesOf(Analyses(lines)) == PhonesPerLine(lines)
  {
  }

  lemma AnalysesEmails(lines: seq<string>)
    ensures EmailsOf(Analyses(lines)) == EmailsPerLine(lines)
  {
  }

  /** A blank text gives a record with every extracted field empty. */
  lemma ParseBlank(text: string, imageUri: Option<string>, ids: nat -> string, now: int)
    requires AllSpace(text)
    ensures var c := ParseBusinessCardText(text, imageUri, ids, now);
      && c.name == "" && c.company == "" && c.position == "" && c.department == ""
      && c.phones == [] && c.emails == [] && c.addresses == [] && c.websites == []
  {
    LinesEmptyIff(text);
  }

  /** The name of the parsed record is the first line, whatever
      `isPersonName` says, and it is empty exactly for a blank text. */
  lemma ParseName(text: string, imageUri: Option<string>, ids: nat -> string, now: int)
    ensures var c := ParseBusinessCardText(text, imageUri, ids, now);
      && (c.name == "" <==> AllSpace(text))
      && (Lines(text) != [] ==> c.name == Lines(text)[0])
  {
    var lines := Lines(text);
    LinesEmptyIff(text);
    ScanName(lines, Analyses(lines), ids);
  }

  /** The company of the parsed record is the first line with a company
      keyword, else the second line, else "". */
  lemma ParseCompany(text: string, imageUri: Option<string>, ids: nat -> string, now: int)
    ensures var c := ParseBusinessCardText(text, imageUri, ids, now);
      var lines := Lines(text);
      var co := FirstIndex(lines, IsCompanyName);
      c.company == LineOr(lines, if co < |lines| then co else 1)
  {
    var lines := Lines(text);
    var facts := Analyses(lines);
    var d := Scan(lines, facts, ids);
    assert NonEmptyLines(lines);
    ScanCompany(lines, facts, ids);
    AnalysesCompany(lines);
    FirstIndexButTransfer(facts, CompanyFact, lines, IsCompanyName, -1);
    var co := FirstIndex(lines, IsCompanyName);
    assert d.company == LineOr(lines, co);
    assert d.company == "" <==> co == |lines|;
  }

  /** The department of the parsed record is the first position-keyword
      line containing '部'; the position is the first other position-keyword
      line. */
  lemma ParseRoles(text: string, imageUri: Option<string>, ids: nat -> string, now: int)
    ensures var c := ParseBusinessCardText(text, imageUri, ids, now);
      var lines := Lines(text);
      var dep := FirstIndex(lines, IsDepartmentLine);
      && c.department == LineOr(lines, dep)
      && c.position == LineOr(lines, FirstIndexBut(lines, IsPosition, dep))
  {
    var lines := Lines(text);
    var facts := Analyses(lines);
    ScanDepartment(lines, facts, ids);
    ScanPosition(lines, facts, ids);
    AnalysesDepartment(lines);
    AnalysesPosition(lines);
    FirstIndexButTransfer(facts, DepartmentFact, lines, IsDepartmentLine, -1);
    FirstIndexButTransfer(facts, PositionFact, lines, IsPosition, FirstIndex(lines, IsDepartmentLine));
  }

  /** The phone entries of each line, line by line. */
  function PhonesPerLine(lines: seq<string>): (r: seq<seq<PhoneFound>>)
    ensures |r| == |lines| && forall i :: 0 <= i < |lines| ==> r[i] == LinePhones(lines[i])
  {
    seq(|lines|, i requires 0 <= i < |lines| => LinePhones(lines[i]))
  }

  /** The e-mail entries of each line, line by line. */
  function EmailsPerLine(lines: seq<string>): (r: seq<seq<EmailFound>>)
    ensures |r| == |lines| && forall i :: 0 <= i < |lines| ==> r[i] == LineEmails(lines[i])
  {
    seq(|lines|, i requires 0 <= i < |lines| => LineEmails(lines[i]))
  }

  /** The phones of the parsed record are the entries of each line in line
      order, at most two per line, each well formed. */
  lemma ParsePhones(text: string, imageUri: Option<string>, ids: nat -> string, now: int)
    ensures var c := ParseBusinessCardText(text, imageUri, ids, now);
      && PhoneFinds(c.phones) == Flatten(PhonesPerLine(Lines(text)))
      && |c.phones| <= 2 * |Lines(text)|
      && forall k :: 0 <= k < |c.phones| ==> WellFormedPhone(PhoneFinds(c.phones)[k])
  {
    var lines := Lines(text);
    var facts := Analyses(lines);
    var per := PhonesPerLine(lines);
    ScanPhones(lines, facts, ids);
    AnalysesPhones(lines);
    FlattenBound(per, 2);
    FlattenAll(per, WellFormedPhone);
  }

  /** What every stored e-mail entry looks like. */
  ghost predicate StoredEmail(e: EmailFound)
  {
    e.displayLabel == "メール" && e.kind == WorkEmail && EmailShaped(e.email)
  }

  lemma EmailsPerLineStored(lines: seq<string>)
    ensures forall i, k :: 0 <= i < |lines| && 0 <= k < |EmailsPerLine(lines)[i]| ==> StoredEmail(EmailsPerLine(lines)[i][k])
  {
  }

  /** The e-mails of the parsed record are the matches of each line in line
      order, at most one per line. */
  lemma ParseEmails(text: string, imageUri: Option<string>, ids: nat -> string, now: int)
    ensures var c := ParseBusinessCardText(text, imageUri, ids, now);
      && EmailFinds(c.emails) == Flatten(EmailsPerLine(Lines(text)))
      && |c.emails| <= |Lines(text)|
      && forall k :: 0 <= k < |c.emails| ==> StoredEmail(EmailFinds(c.emails)[k])
  {
    var lines := Lines(text);
    var facts := Analyses(lines);
    var per := EmailsPerLine(lines);
    ScanEmails(lines, facts, ids);
    AnalysesEmails(lines);
    FlattenBound(per, 1);
    EmailsPerLineStored(lines);
    FlattenAll(per, StoredEmail);
  }

  /** The parsed record has at most one address, from the first address
      line. */
  lemma ParseAddress(text: string, imageUri: Option<string>, ids: nat -> string, now: int)
    ensures var c := ParseBusinessCardText(text, imageUri, ids, now);
      var lines := Lines(text);
      var i := FirstIndex(lines, IsAddressLine);
      && |c.addresses| <= 1
      && (c.addresses == [] <==> i == |lines|)
      && (i < |lines| ==> AddressFrom(c.addresses[0], AddressOf(lines[i])))
      && (i < |lines| ==> c.addresses[0].postalCode == "" || PostalShaped(c.addresses[0].postalCode))
  {
    var lines := Lines(text);
    var facts := Analyses(lines);
    ScanAddresses(lines, facts, ids);
    AnalysesAddress(lines);
    FirstIndexButTransfer(facts, AddressFact, lines, IsAddressLine, -1);
  }

  /** Every website of the parsed record starts with "http", and there is
      at most one per line. (The same website can be stored twice: see
      `ParseDuplicateAsWritten`.) */
  lemma ParseWebsites(text: string, imageUri: Option<string>, ids: nat -> string, now: int)
    ensures var c := ParseBusinessCardText(text, imageUri, ids, now);
      |c.websites| <= |Lines(text)| && AllHttp(c.websites)
  {
    var lines := Lines(text);
    ScanWebsites(lines, Analyses(lines), ids);
  }

  function WebsitesOf(facts: seq<LineFacts>): (r: seq<Option<string>>)
    ensures |r| == |facts| && forall i :: 0 <= i < |facts| ==> r[i] == facts[i].website
  {
    seq(|facts|, i requires 0 <= i < |facts| => facts[i].website)
  }

  lemma {:induction false} ScanWebsitesFold(lines: seq<string>, facts: seq<LineFacts>, ids: nat -> string)
    requires |facts| == |lines|
    ensures Scan(lines, facts, ids).websites == WebsitesFoldAsWritten(WebsitesOf(facts))
    decreases |lines|
  {
    if lines != [] {
      var n := |lines| - 1;
      ScanWebsitesFold(lines[..n], facts[..n], ids);
      assert WebsitesOf(facts)[..n] == WebsitesOf(facts[..n]);
    }
  }

  /** The websites of the parsed record are the website matches of the lines
      folded by the step as written, in line order. */
  lemma ParseWebsitesFold(text: string, imageUri: Option<string>, ids: nat -> string, now: int)
    ensures ParseBusinessCardText(text, imageUri, ids, now).websites == WebsitesFoldAsWritten(WebsiteMatches(Lines(text)))
  {
    var lines := Lines(text);
    ScanWebsitesFold(lines, Analyses(lines), ids);
    assert WebsitesOf(Analyses(lines)) == WebsiteMatches(lines);
  }

  /** Every match is absent or already starts with "http". */
  predicate NoBareMatch(ms: seq<Option<string>>)
  {
    forall i :: 0 <= i < |ms| ==> ms[i].None? || StartsWith(ms[i].value, "http")
  }

  /** When no line offers a bare domain, the step as written and the
      corrected step build the same list: the stored form is the match. */
  lemma {:induction false} FoldsAgree(ms: seq<Option<string>>)
    requires NoBareMatch(ms)
    ensures WebsitesFoldAsWritten(ms) == WebsitesFold(ms)
    decreases |ms|
  {
    if ms != [] {
      var n := |ms| - 1;
      assert NoBareMatch(ms[..n]) by {
        forall i | 0 <= i < n ensures ms[..n][i] == ms[i] { }
      }
      FoldsAgree(ms[..n]);
    }
  }

  /** When every website match of the lines starts with "http", the
      corrected parser and the code agree. */
  lemma ParseCorrectedAgrees(text: string, imageUri: Option<string>, ids: nat -> string, now: int)
    requires NoBareMatch(WebsiteMatches(Lines(text)))
    ensures ParseBusinessCardTextCorrected(text, imageUri, ids, now) == ParseBusinessCardText(text, imageUri, ids, now)
  {
    ParseWebsitesFold(text, imageUri, ids, now);
    FoldsAgree(WebsiteMatches(Lines(text)));
  }

  // ---------------------------------------------------------------------
  // E-mail lines also give a website
  // ---------------------------------------------------------------------

  /** The website pattern matches the domain of every e-mail match, so a
      line with an e-mail address also has a website match. */
  lemma EmailLineHasWebsite(line: string)
    ensures EmailMatch(line).Some? ==> WebsiteMatch(line).Some?
  {
    if EmailMatch(line).Some? {
      var h := FindFirst(line, 0, EmailAt).value;
      var a :| h.pos < a && DomainAt(line, a).Some?;
      assert WebsiteAt(line, a).Some?;
      assert FindFirst(line, 0, WebsiteAt).Some?;
    }
  }

  /** A website step never empties the list, and fills an empty one when
      there is a match. */
  lemma WebsiteStepNonEmpty(websites: seq<string>, m: Option<string>)
    ensures websites != [] || m.Some? ==> WebsiteStepAsWritten(websites, m) != []
  {
  }

  /** Once some line offers a website, the walk's website list is not empty. */
  lemma {:induction false} ScanWebsitesPresent(lines: seq<string>, facts: seq<LineFacts>, ids: nat -> string, i: nat)
    requires |facts| == |lines| && i < |facts| && facts[i].website.Some?
    ensures Scan(lines, facts, ids).websites != []
    decreases |lines|
  {
    var n := |lines| - 1;
    var w0 := Scan(lines[..n], facts[..n], ids).websites;
    if i < n {
      assert facts[..n][i] == facts[i];
      ScanWebsitesPresent(lines[..n], facts[..n], ids, i);
    }
    WebsiteStepNonEmpty(w0, facts[n].website);
  }

  lemma FlattenNonEmpty<T>(xss: seq<seq<T>>) returns (i: nat)
    requires Flatten(xss) != []
    ensures i < |xss| && xss[i] != []
  {
    if xss[0] == [] {
      var j := FlattenNonEmpty(xss[1..]);
      i := j + 1;
      assert xss[i] == xss[1..][j];
    } else {
      i := 0;
    }
  }

  lemma AnalysesAt(lines: seq<string>, i: nat)
    requires i < |lines|
    ensures Analyses(lines)[i].emails == LineEmails(lines[i])
    ensures Analyses(lines)[i].website == WebsiteMatch(lines[i])
  {
  }

  /** A parsed card with an e-mail address always has a website: the domain
      of the address. */
  lemma ParseEmailGivesWebsite(text: string, imageUri: Option<string>, ids: nat -> string, now: int)
    ensures var c := ParseBusinessCardText(text, imageUri, ids, now);
      c.emails != [] ==> c.websites != []
  {
    var c := ParseBusinessCardText(text, imageUri, ids, now);
    if c.emails != [] {
      var lines := Lines(text);
      var facts := Analyses(lines);
      ScanEmails(lines, facts, ids);
      var per := EmailsOf(facts);
      assert Flatten(per) != [];
      var i := FlattenNonEmpty(per);
      AnalysesAt(lines, i);
      EmailLineHasWebsite(lines[i]);
      ScanWebsitesPresent(lines, facts, ids, i);
    }
  }
}
