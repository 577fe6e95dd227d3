/** The vCard 3.0 serialiser of the export service
    (src/services/exportService.ts): one card per contact, written as the
    content lines of RFC 2426, each followed by '\n'. Values are written as
    they are; the value escaping of section 4 of RFC 2426 is not applied.

    The card is built as twelve blocks of lines, one block per property name
    in writing order; a block is empty when the contact has nothing for that
    property. */
module VCard {
  import opened Types
  import opened Text

  /** A content line (section 2.1 of RFC 2426 with the grouping prefix left
      out): the property name, its parameters (empty, or starting with ';'),
      ':' and the value. */
  function ContentLine(name: string, params: string, value: string): string
  {
    name + params + ":" + value
  }

  /** The property name a reader sees in a line: the text before the first
      ':' or ';'. */
  function Tag(line: string): (r: string)
    ensures |r| <= |line|
  {
    if line == [] || line[0] == ':' || line[0] == ';' then ""
    else [line[0]] + Tag(line[1..])
  }

  lemma {:induction false} TagOf(name: string, rest: string)
    requires ':' !in name && ';' !in name
    requires rest != [] && (rest[0] == ':' || rest[0] == ';')
    ensures Tag(name + rest) == name
    decreases |name|
  {
    if name == [] {
      assert name + rest == rest;
    } else {
      assert (name + rest)[1..] == name[1..] + rest;
      TagOf(name[1..], rest);
      assert [name[0]] + name[1..] == name;
    }
  }

  /** A content line is read back under the property name it was written with. */
  lemma TagOfContentLine(name: string, params: string, value: string)
    requires ':' !in name && ';' !in name
    requires params == [] || params[0] == ';'
    ensures Tag(ContentLine(name, params, value)) == name
  {
    assert ContentLine(name, params, value) == name + (params + ":" + value);
    TagOf(name, params + ":" + value);
  }

  // ---------------------------------------------------------------------------
  // The structured name (section 3.1.2 of RFC 2426)
  // ---------------------------------------------------------------------------

  /** The last space-separated part of the name. */
  function FamilyName(name: string): string
  {
    var parts := Split(name, ' ');
    parts[|parts| - 1]
  }

  /** All space-separated parts but the last, joined again with spaces. */
  function GivenNames(name: string): string
  {
    var parts := Split(name, ' ');
    Join(parts[..|parts| - 1], " ")
  }

  /** The N value: family and given components when the name has two or more
      parts, else the whole name as the family component. */
  function NameValue(name: string): string
  {
    if |Split(name, ' ')| >= 2 then FamilyName(name) + ";" + GivenNames(name) + ";;;"
    else name + ";;;;"
  }

  /** A name has two or more parts exactly when it contains a space; then the
      given names, a space and the family name spell the name again, and the
      family name has no space in it. */
  lemma NameSplit(name: string)
    ensures |Split(name, ' ')| >= 2 <==> ' ' in name
    ensures ' ' in name ==> GivenNames(name) + " " + FamilyName(name) == name
    ensures ' ' !in FamilyName(name)
  {
    var parts := Split(name, ' ');
    JoinSplit(name, ' ');
    if ' ' !in name {
      SplitNoSep(name, ' ');
    } else if |parts| >= 2 {
      var n := |parts| - 1;
      assert parts == parts[..n] + [parts[n]];
      JoinSnoc(parts[..n], parts[n], " ");
    }
  }

  // ---------------------------------------------------------------------------
  // The card
  // ---------------------------------------------------------------------------

  /** The property names, in the order the card writes them. */
  const PropertyOrder: seq<string> :=
    ["BEGIN", "VERSION", "FN", "N", "ORG", "TITLE", "TEL", "EMAIL", "ADR", "URL", "NOTE", "END"]

  /** The ORG value: the company, then the department as a unit when there is one. */
  function OrgValue(c: Contact): string
  {
    if c.department != "" then c.company + ";" + c.department else c.company
  }

  function TelLine(p: ContactPhone): string
  {
    ContentLine("TEL", ";TYPE=" + Upper(PhoneTypeName(p.kind)), p.number)
  }

  function EmailLine(e: ContactEmail): string
  {
    ContentLine("EMAIL", ";TYPE=" + Upper(EmailTypeName(e.kind)), e.email)
  }

  /** The ADR value: empty post-office-box and extended-address components,
      then street, locality (city), region (state), postal code and country. */
  function AdrValue(a: ContactAddress): string
  {
    ";;" + a.street + ";" + a.city + ";" + a.state + ";" + a.postalCode + ";" + a.country
  }

  /** A one-line block that is written only when `present`. */
  function Optional(present: bool, line: string): seq<string>
  {
    if present then [line] else []
  }

  function TelBlock(ps: seq<ContactPhone>): (r: seq<string>)
    ensures |r| == |ps|
    ensures forall i :: 0 <= i < |ps| ==> r[i] == TelLine(ps[i])
  {
    seq(|ps|, i requires 0 <= i < |ps| => TelLine(ps[i]))
  }

  function EmailBlock(es: seq<ContactEmail>): (r: seq<string>)
    ensures |r| == |es|
    ensures forall i :: 0 <= i < |es| ==> r[i] == EmailLine(es[i])
  {
    seq(|es|, i requires 0 <= i < |es| => EmailLine(es[i]))
  }

  function AdrBlock(addrs: seq<ContactAddress>): (r: seq<string>)
    ensures |r| == |addrs|
    ensures forall i :: 0 <= i < |addrs| ==> r[i] == ContentLine("ADR", "", AdrValue(addrs[i]))
  {
    seq(|addrs|, i requires 0 <= i < |addrs| => ContentLine("ADR", "", AdrValue(addrs[i])))
  }

  function UrlBlock(ws: seq<string>): (r: seq<string>)
    ensures |r| == |ws|
    ensures forall i :: 0 <= i < |ws| ==> r[i] == ContentLine("URL", "", ws[i])
  {
    seq(|ws|, i requires 0 <= i < |ws| => ContentLine("URL", "", ws[i]))
  }

  /** The lines of the card, one block per entry of `PropertyOrder`. */
  function Blocks(c: Contact): (r: seq<seq<string>>)
    ensures |r| == |PropertyOrder|
  {
    [ Optional(true, ContentLine("BEGIN", "", "VCARD")),
      Optional(true, ContentLine("VERSION", "", "3.0")),
      Optional(c.name != "", ContentLine("FN", "", c.name)),
      Optional(c.name != "", ContentLine("N", "", NameValue(c.name))),
      Optional(c.company != "", ContentLine("ORG", "", OrgValue(c))),
      Optional(c.position != "", ContentLine("TITLE", "", c.position)),
      TelBlock(c.phones),
      EmailBlock(c.emails),
      AdrBlock(c.addresses),
      UrlBlock(c.websites),
      Optional(c.notes != "", ContentLine("NOTE", "", c.notes)),
      Optional(true, ContentLine("END", "", "VCARD")) ]
  }

  function VcfLines(c: Contact): seq<string>
  {
    Flatten(Blocks(c))
  }

  /** Each line followed by '\n'. */
  function Unlines(ls: seq<string>): string
  {
    if ls == [] then "" else ls[0] + "\n" + Unlines(ls[1..])
  }

  lemma {:induction false} UnlinesAppend(a: seq<string>, b: seq<string>)
    ensures Unlines(a + b) == Unlines(a) + Unlines(b)
    decreases |a|
  {
    if a == [] {
      assert a + b == b;
    } else {
      assert (a + b)[1..] == a[1..] + b;
      UnlinesAppend(a[1..], b);
    }
  }

  /** Writing lines with a '\n' after each is joining them with a final empty line. */
  lemma {:induction false} UnlinesJoin(ls: seq<string>)
    ensures Unlines(ls) == Join(ls + [""], "\n")
    decreases |ls|
  {
    if ls != [] {
      UnlinesJoin(ls[1..]);
      assert (ls + [""])[1..] == ls[1..] + [""];
    }
  }

  /** The three fixed lines. */
  lemma FixedLines()
    ensures ContentLine("BEGIN", "", "VCARD") == "BEGIN:VCARD"
    ensures ContentLine("VERSION", "", "3.0") == "VERSION:3.0"
    ensures ContentLine("END", "", "VCARD") == "END:VCARD"
  {
  }

  /** The card is BEGIN, then the blocks from VERSION to NOTE, then END. */
  lemma CardFrame(c: Contact)
    ensures VcfLines(c) == ["BEGIN:VCARD"] + (["VERSION:3.0"] + Flatten(Blocks(c)[2..11])) + ["END:VCARD"]
  {
    var bs := Blocks(c);
    FixedLines();
    assert bs == bs[..11] + [bs[11]];
    FlattenSnoc(bs[..11], bs[11]);
    assert bs[..11][1..] == bs[1..11];
    assert bs[1..11][1..] == bs[2..11];
  }

  lemma FrameText(inner: seq<string>)
    ensures Unlines(["BEGIN:VCARD"] + (["VERSION:3.0"] + inner) + ["END:VCARD"])
         == "BEGIN:VCARD\nVERSION:3.0\n" + Unlines(inner) + "END:VCARD\n"
  {
    UnlinesAppend(["BEGIN:VCARD"] + (["VERSION:3.0"] + inner), ["END:VCARD"]);
    UnlinesAppend(["BEGIN:VCARD"], ["VERSION:3.0"] + inner);
    UnlinesAppend(["VERSION:3.0"], inner);
  }

  lemma Framed(p: string, m: string, q: string)
    ensures StartsWith(p + m + q, p) && EndsWith(p + m + q, q)
  {
    assert (p + m + q)[..|p|] == p;
    assert (p + m + q)[|p + m + q| - |q|..] == q;
  }

  /** `contactToVCF`: the card always opens with BEGIN and VERSION 3.0 and
      closes with END. */
  function ContactToVcf(c: Contact): (r: string)
    ensures StartsWith(r, "BEGIN:VCARD\nVERSION:3.0\n")
    ensures EndsWith(r, "END:VCARD\n")
  {
    var inner := Flatten(Blocks(c)[2..11]);
    CardFrame(c);
    FrameText(inner);
    Framed("BEGIN:VCARD\nVERSION:3.0\n", Unlines(inner), "END:VCARD\n");
    Unlines(VcfLines(c))
  }

  // ---------------------------------------------------------------------------
  // Reading the card back by property name
  // ---------------------------------------------------------------------------

  /** The elements that satisfy `P`, in order. */
  function Select<T>(xs: seq<T>, P: T -> bool): seq<T>
  {
    if xs == [] then []
    else (if P(xs[0]) then [xs[0]] else []) + Select(xs[1..], P)
  }

  lemma {:induction false} SelectAppend<T>(a: seq<T>, b: seq<T>, P: T -> bool)
    ensures Select(a + b, P) == Select(a, P) + Select(b, P)
    decreases |a|
  {
    if a == [] {
      assert a + b == b;
    } else {
      var h := if P(a[0]) then [a[0]] else [];
      var ab := a + b;
      assert ab != [] && ab[0] == a[0] && ab[1..] == a[1..] + b;
      SelectAppend(a[1..], b, P);
      calc {
        Select(ab, P);
        h + Select(a[1..] + b, P);
        h + (Select(a[1..], P) + Select(b, P));
        (h + Select(a[1..], P)) + Select(b, P);
        Select(a, P) + Select(b, P);
      }
    }
  }

  /** The lines written under property name `t`, in order. */
  function WithTag(ls: seq<string>, t: string): seq<string>
  {
    Select(ls, (line: string) => Tag(line) == t)
  }

  /** Every line of the block is written under property name `t`. */
  predicate Uniform(block: seq<string>, t: string)
  {
    forall i :: 0 <= i < |block| ==> Tag(block[i]) == t
  }

  lemma WithTagAppend(a: seq<string>, b: seq<string>, t: string)
    ensures WithTag(a + b, t) == WithTag(a, t) + WithTag(b, t)
  {
    SelectAppend(a, b, (line: string) => Tag(line) == t);
  }

  lemma {:induction false} WithTagUniform(ls: seq<string>, u: string, t: string)
    requires Uniform(ls, u)
    ensures WithTag(ls, t) == if t == u then ls else []
    decreases |ls|
  {
    if ls != [] {
      WithTagUniform(ls[1..], u, t);
      assert [ls[0]] + ls[1..] == ls;
    }
  }

  /** Blocks written under distinct property names are separated again by
      reading the lines of one name. */
  lemma {:induction false} WithTagBlocks(bs: seq<seq<string>>, tags: seq<string>, t: string)
    requires |bs| == |tags| && Distinct(tags)
    requires forall j :: 0 <= j < |bs| ==> Uniform(bs[j], tags[j])
    ensures forall k :: 0 <= k < |tags| && tags[k] == t ==> WithTag(Flatten(bs), t) == bs[k]
    ensures t !in tags ==> WithTag(Flatten(bs), t) == []
    decreases |bs|
  {
    if bs != [] {
      WithTagAppend(bs[0], Flatten(bs[1..]), t);
      WithTagUniform(bs[0], tags[0], t);
      assert forall j :: 0 <= j < |bs[1..]| ==> bs[1..][j] == bs[j + 1] && tags[1..][j] == tags[j + 1];
      WithTagBlocks(bs[1..], tags[1..], t);
      if tags[0] == t {
        assert t !in tags[1..];
      } else {
        forall k | 0 <= k < |tags| && tags[k] == t
          ensures WithTag(Flatten(bs), t) == bs[k]
        {
          assert tags[1..][k - 1] == t;
        }
      }
    }
  }

  lemma PropertyOrderDistinct()
    ensures Distinct(PropertyOrder)
  {
  }

  lemma OptionalUniform(present: bool, name: string, params: string, value: string)
    requires ':' !in name && ';' !in name
    requires params == [] || params[0] == ';'
    ensures Uniform(Optional(present, ContentLine(name, params, value)), name)
  {
    TagOfContentLine(name, params, value);
  }

  lemma TelUniform(ps: seq<ContactPhone>)
    ensures Uniform(TelBlock(ps), "TEL")
  {
    forall i | 0 <= i < |ps| ensures Tag(TelBlock(ps)[i]) == "TEL" {
      TagOfContentLine("TEL", ";TYPE=" + Upper(PhoneTypeName(ps[i].kind)), ps[i].number);
    }
  }

  lemma EmailUniform(es: seq<ContactEmail>)
    ensures Uniform(EmailBlock(es), "EMAIL")
  {
    forall i | 0 <= i < |es| ensures Tag(EmailBlock(es)[i]) == "EMAIL" {
      TagOfContentLine("EMAIL", ";TYPE=" + Upper(EmailTypeName(es[i].kind)), es[i].email);
    }
  }

  lemma AdrUniform(addrs: seq<ContactAddress>)
    ensures Uniform(AdrBlock(addrs), "ADR")
  {
    forall i | 0 <= i < |addrs| ensures Tag(AdrBlock(addrs)[i]) == "ADR" {
      TagOfContentLine("ADR", "", AdrValue(addrs[i]));
    }
  }

  lemma UrlUniform(ws: seq<string>)
    ensures Uniform(UrlBlock(ws), "URL")
  {
    forall i | 0 <= i < |ws| ensures Tag(UrlBlock(ws)[i]) == "URL" {
      TagOfContentLine("URL", "", ws[i]);
    }
  }

  /** Every line of the card is written under the property name of its block. */
  lemma BlockTags(c: Contact)
    ensures forall j :: 0 <= j < |Blocks(c)| ==> Uniform(Blocks(c)[j], PropertyOrder[j])
  {
    var bs := Blocks(c);
    forall j | 0 <= j < |bs| ensures Uniform(bs[j], PropertyOrder[j]) {
      if j == 0 {
        OptionalUniform(true, "BEGIN", "", "VCARD");
      } else if j == 1 {
        OptionalUniform(true, "VERSION", "", "3.0");
      } else if j == 2 {
        OptionalUniform(c.name != "", "FN", "", c.name);
      } else if j == 3 {
        OptionalUniform(c.name != "", "N", "", NameValue(c.name));
      } else if j == 4 {
        OptionalUniform(c.company != "", "ORG", "", OrgValue(c));
      } else if j == 5 {
        OptionalUniform(c.position != "", "TITLE", "", c.position);
      } else if j == 6 {
        TelUniform(c.phones);
      } else if j == 7 {
        EmailUniform(c.emails);
      } else if j == 8 {
        AdrUniform(c.addresses);
      } else if j == 9 {
        UrlUniform(c.websites);
      } else if j == 10 {
        OptionalUniform(c.notes != "", "NOTE", "", c.notes);
      } else {
        OptionalUniform(true, "END", "", "VCARD");
      }
    }
  }

  /** Reading the card's lines under one property name gives that property's
      block: the lines of other properties never interfere. */
  lemma PropertyLines(c: Contact, k: nat)
    requires k < |PropertyOrder|
    ensures WithTag(VcfLines(c), PropertyOrder[k]) == Blocks(c)[k]
  {
    PropertyOrderDistinct();
    BlockTags(c);
    WithTagBlocks(Blocks(c), PropertyOrder, PropertyOrder[k]);
  }

  /** FN and N appear only for a non-empty name, once each. */
  lemma NameProperties(c: Contact)
    ensures WithTag(VcfLines(c), "FN") == (if c.name != "" then [ContentLine("FN", "", c.name)] else [])
    ensures WithTag(VcfLines(c), "N") == (if c.name != "" then [ContentLine("N", "", NameValue(c.name))] else [])
  {
    PropertyLines(c, 2);
    PropertyLines(c, 3);
  }

  /** ORG appears only for a non-empty company, with the department only when
      there is one; TITLE appears only for a non-empty position. */
  lemma OrganisationProperties(c: Contact)
    ensures WithTag(VcfLines(c), "ORG") ==
              (if c.company == "" then []
               else if c.department == "" then [ContentLine("ORG", "", c.company)]
               else [ContentLine("ORG", "", c.company + ";" + c.department)])
    ensures WithTag(VcfLines(c), "TITLE") == (if c.position != "" then [ContentLine("TITLE", "", c.position)] else [])
  {
    PropertyLines(c, 4);
    PropertyLines(c, 5);
  }

  /** NOTE appears only for non-empty notes. */
  lemma NoteProperty(c: Contact)
    ensures WithTag(VcfLines(c), "NOTE") == (if c.notes != "" then [ContentLine("NOTE", "", c.notes)] else [])
  {
    PropertyLines(c, 10);
  }

  /** One TEL line per phone, in order, with the upper-cased kind as TYPE. */
  lemma TelProperties(c: Contact)
    ensures var tels := WithTag(VcfLines(c), "TEL");
            |tels| == |c.phones| &&
            forall i :: 0 <= i < |c.phones| ==>
              tels[i] == ContentLine("TEL", ";TYPE=" + Upper(PhoneTypeName(c.phones[i].kind)), c.phones[i].number)
  {
    PropertyLines(c, 6);
  }

  /** One EMAIL line per e-mail entry, in order, with the upper-cased kind as TYPE. */
  lemma EmailProperties(c: Contact)
    ensures var mails := WithTag(VcfLines(c), "EMAIL");
            |mails| == |c.emails| &&
            forall i :: 0 <= i < |c.emails| ==>
              mails[i] == ContentLine("EMAIL", ";TYPE=" + Upper(EmailTypeName(c.emails[i].kind)), c.emails[i].email)
  {
    PropertyLines(c, 7);
  }

  /** One ADR line per address and one URL line per website, in order. */
  lemma AdrUrlProperties(c: Contact)
    ensures var adrs := WithTag(VcfLines(c), "ADR");
            |adrs| == |c.addresses| &&
            forall i :: 0 <= i < |c.addresses| ==>
              var a := c.addresses[i];
              adrs[i] == ContentLine("ADR", "", ";;" + a.street + ";" + a.city + ";" + a.state + ";" + a.postalCode + ";" + a.country)
    ensures var urls := WithTag(VcfLines(c), "URL");
            |urls| == |c.websites| &&
            forall i :: 0 <= i < |c.websites| ==> urls[i] == ContentLine("URL", "", c.websites[i])
  {
    PropertyLines(c, 8);
    PropertyLines(c, 9);
  }

  // ---------------------------------------------------------------------------
  // Splitting the card into lines
  // ---------------------------------------------------------------------------

  /** No text of the contact that the card writes contains a line break. */
  predicate SingleLineFields(c: Contact)
  {
    && '\n' !in c.name && '\n' !in c.company && '\n' !in c.department
    && '\n' !in c.position && '\n' !in c.notes
    && (forall i :: 0 <= i < |c.phones| ==> '\n' !in c.phones[i].number)
    && (forall i :: 0 <= i < |c.emails| ==> '\n' !in c.emails[i].email)
    && (forall i :: 0 <= i < |c.websites| ==> '\n' !in c.websites[i])
    && (forall i :: 0 <= i < |c.addresses| ==> '\n' !in AdrValue(c.addresses[i]))
  }

  /** No line of the block has a line break. */
  predicate NoBreaks(block: seq<string>)
  {
    forall i :: 0 <= i < |block| ==> '\n' !in block[i]
  }

  lemma UpperAvoids(s: string, x: char)
    requires !('A' <= x <= 'Z') && x !in s
    ensures x !in Upper(s)
  {
  }

  lemma NameNoBreaks(c: Contact)
    requires '\n' !in c.name
    ensures NoBreaks(Optional(c.name != "", ContentLine("N", "", NameValue(c.name))))
  {
    NameSplit(c.name);
    if ' ' in c.name {
      assert '\n' !in GivenNames(c.name) + " " + FamilyName(c.name);
    }
  }

  lemma TelNoBreaks(ps: seq<ContactPhone>)
    requires forall i :: 0 <= i < |ps| ==> '\n' !in ps[i].number
    ensures NoBreaks(TelBlock(ps))
  {
    forall i | 0 <= i < |ps| ensures '\n' !in TelBlock(ps)[i] {
      UpperAvoids(PhoneTypeName(ps[i].kind), '\n');
    }
  }

  lemma EmailNoBreaks(es: seq<ContactEmail>)
    requires forall i :: 0 <= i < |es| ==> '\n' !in es[i].email
    ensures NoBreaks(EmailBlock(es))
  {
    forall i | 0 <= i < |es| ensures '\n' !in EmailBlock(es)[i] {
      UpperAvoids(EmailTypeName(es[i].kind), '\n');
    }
  }

  lemma AdrNoBreaks(addrs: seq<ContactAddress>)
    requires forall i :: 0 <= i < |addrs| ==> '\n' !in AdrValue(addrs[i])
    ensures NoBreaks(AdrBlock(addrs))
  {
  }

  lemma UrlNoBreaks(ws: seq<string>)
    requires forall i :: 0 <= i < |ws| ==> '\n' !in ws[i]
    ensures NoBreaks(UrlBlock(ws))
  {
  }

  lemma OptionalNoBreaks(present: bool, name: string, params: string, value: string)
    requires '\n' !in name && '\n' !in params && '\n' !in value
    ensures NoBreaks(Optional(present, ContentLine(name, params, value)))
  {
  }

  lemma BlocksNoBreaks(c: Contact)
    requires SingleLineFields(c)
    ensures forall j :: 0 <= j < |Blocks(c)| ==> NoBreaks(Blocks(c)[j])
  {
    OptionalNoBreaks(true, "BEGIN", "", "VCARD");
    OptionalNoBreaks(true, "VERSION", "", "3.0");
    OptionalNoBreaks(c.name != "", "FN", "", c.name);
    NameNoBreaks(c);
    OptionalNoBreaks(c.company != "", "ORG", "", OrgValue(c));
    OptionalNoBreaks(c.position != "", "TITLE", "", c.position);
    TelNoBreaks(c.phones);
    EmailNoBreaks(c.emails);
    AdrNoBreaks(c.addresses);
    UrlNoBreaks(c.websites);
    OptionalNoBreaks(c.notes != "", "NOTE", "", c.notes);
    OptionalNoBreaks(true, "END", "", "VCARD");
  }

  /** When no field has a line break, splitting the card at '\n' gives its
      lines, and an empty piece after the final '\n'. */
  lemma CardLines(c: Contact)
    requires SingleLineFields(c)
    ensures Split(ContactToVcf(c), '\n') == VcfLines(c) + [""]
  {
    var ls := VcfLines(c);
    BlocksNoBreaks(c);
    FlattenAll(Blocks(c), (line: string) => '\n' !in line);
    UnlinesJoin(ls);
    assert forall k :: 0 <= k < |ls + [""]| ==> '\n' !in (ls + [""])[k];
    SplitJoin(ls + [""], '\n');
  }
}
