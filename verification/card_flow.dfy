/** How a scanned card travels through the application: the record the
    parser builds (src/services/ocrService.ts) is named by the display-name
    helper and judged by the completeness check (src/utils/helpers.ts), and
    once added to the contact store (src/store/contactStore.ts) it is found by
    a search for its own name. */
module CardFlow {
  import opened Types
  import opened Text
  import opened CardParser
  import opened ParserFacts
  import opened Helpers
  import opened ContactStore

  /** A scanned card is shown under its first line, and a blank scan under the
      placeholder title. */
  lemma ScannedDisplayName(text: string, imageUri: Option<string>, ids: nat -> string, now: int)
    ensures var c := ParseBusinessCardText(text, imageUri, ids, now);
            (Lines(text) != [] ==> GetContactDisplayName(c) == Lines(text)[0]) &&
            (AllSpace(text) ==> GetContactDisplayName(c) == UntitledContact)
  {
    LinesEmptyIff(text);
    ParseName(text, imageUri, ids, now);
    if AllSpace(text) {
      ParseBlank(text, imageUri, ids, now);
    }
  }

  /** A scan of two or more lines always has a company (the second line at
      the latest), so it is complete as soon as it has a phone or an e-mail. */
  lemma ScannedComplete(text: string, imageUri: Option<string>, ids: nat -> string, now: int)
    requires |Lines(text)| >= 2
    ensures var c := ParseBusinessCardText(text, imageUri, ids, now);
            IsContactComplete(c) <==> c.phones != [] || c.emails != []
  {
    var lines := Lines(text);
    LinesEmptyIff(text);
    LinesNonEmpty(text);
    ParseName(text, imageUri, ids, now);
    ParseCompany(text, imageUri, ids, now);
    var co := FirstIndex(lines, IsCompanyName);
    assert LineOr(lines, if co < |lines| then co else 1) != "";
  }

  /** A string contains itself. */
  lemma ContainsSelf(s: string)
    ensures Contains(s, s)
  {
    ContainsIff(s, s);
    assert OccursAt(s, s, 0);
  }

  /** After a scanned card is added, searching for its name lists it. */
  lemma ScannedCardFound(s: ContactState, text: string, imageUri: Option<string>, ids: nat -> string,
                         id: string, now: int)
    requires !AllSpace(text)
    ensures var c := ParseBusinessCardText(text, imageUri, ids, now);
            var added := AddContact(s, c, id, now);
            c.(id := id) in SetSearchQuery(added, c.name).filteredContacts
  {
    var c := ParseBusinessCardText(text, imageUri, ids, now);
    LinesEmptyIff(text);
    ParseName(text, imageUri, ids, now);
    var line := Lines(text)[0];
    assert IsTrimmedLine(line);
    assert !AllSpace(c.name);
    ContainsSelf(Lower(c.name));
    var stored := c.(id := id, createdAt := now, updatedAt := now);
    assert stored == c.(id := id);
    assert MatchesQuery(stored, Lower(c.name));
    var added := AddContact(s, c, id, now);
    assert stored in added.contacts by {
      assert added.contacts[|s.contacts|] == stored;
    }
  }
}
