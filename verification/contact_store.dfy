/** The contact store (src/store/contactStore.ts) as pure state transitions:
    the contact list, the selected contact, the search query and the
    filtered list the contact screen shows. Ids and timestamps are supplied
    by the caller. Every action that changes the list or the query recomputes
    the filtered list, so it always equals the filter of the list by the
    query. */
module ContactStore {
  import opened Types
  import opened Text

  datatype ContactState = ContactState(
    contacts: seq<Contact>,
    selectedContact: Option<Contact>,
    searchQuery: string,
    filteredContacts: seq<Contact>)

  // ---------------------------------------------------------------------------
  // Search
  // ---------------------------------------------------------------------------

  /** Some entry, lower-cased, contains `q`. */
  predicate AnyContains(xs: seq<string>, q: string)
  {
    exists i :: 0 <= i < |xs| && Contains(Lower(xs[i]), q)
  }

  /** A contact matches a lower-cased query when one of its searchable texts,
      lower-cased, contains the query. An absent position or department is
      the empty string, which contains no non-empty query. */
  predicate MatchesQuery(c: Contact, q: string)
  {
    || Contains(Lower(c.name), q)
    || Contains(Lower(c.company), q)
    || Contains(Lower(c.position), q)
    || Contains(Lower(c.department), q)
    || AnyContains(PhoneNumbers(c.phones), q)
    || AnyContains(EmailAddresses(c.emails), q)
    || Contains(Lower(c.notes), q)
    || AnyContains(c.tags, q)
  }

  /** `sub` is `xs` with some elements left out, the rest in the same order. */
  predicate IsSubsequence<T(==)>(sub: seq<T>, xs: seq<T>)
    decreases |xs|
  {
    if sub == [] then true
    else if xs == [] then false
    else (sub[0] == xs[0] && IsSubsequence(sub[1..], xs[1..])) || IsSubsequence(sub, xs[1..])
  }

  lemma {:induction false} SubsequenceRefl<T>(xs: seq<T>)
    ensures IsSubsequence(xs, xs)
    decreases |xs|
  {
    if xs != [] {
      SubsequenceRefl(xs[1..]);
    }
  }

  /** The contacts that match, in list order. */
  function KeepMatching(contacts: seq<Contact>, q: string): (r: seq<Contact>)
    ensures |r| <= |contacts|
    ensures forall c :: c in r <==> c in contacts && MatchesQuery(c, q)
  {
    if contacts == [] then []
    else (if MatchesQuery(contacts[0], q) then [contacts[0]] else []) + KeepMatching(contacts[1..], q)
  }

  /** Every copy of a matching contact is kept and no copy of another one. */
  lemma {:induction false} KeepMatchingCounts(contacts: seq<Contact>, q: string, c: Contact)
    ensures multiset(KeepMatching(contacts, q))[c] == if MatchesQuery(c, q) then multiset(contacts)[c] else 0
    decreases |contacts|
  {
    if contacts != [] {
      KeepMatchingCounts(contacts[1..], q, c);
      assert contacts == [contacts[0]] + contacts[1..];
    }
  }

  lemma {:induction false} KeepMatchingSubsequence(contacts: seq<Contact>, q: string)
    ensures IsSubsequence(KeepMatching(contacts, q), contacts)
    decreases |contacts|
  {
    if contacts != [] {
      KeepMatchingSubsequence(contacts[1..], q);
      var r := KeepMatching(contacts, q);
      var rest := KeepMatching(contacts[1..], q);
      if MatchesQuery(contacts[0], q) {
        assert r == [contacts[0]] + rest;
        assert r[0] == contacts[0] && r[1..] == rest;
      } else {
        assert r == rest;
      }
    }
  }

  /** `filterContacts`: a blank query (empty or all `\s`) keeps every contact;
      any other query keeps exactly the contacts that match its lower-cased
      form. */
  function FilterContacts(contacts: seq<Contact>, query: string): (r: seq<Contact>)
    ensures AllSpace(query) ==> r == contacts
    ensures !AllSpace(query) ==> forall c :: c in r <==> c in contacts && MatchesQuery(c, Lower(query))
  {
    if Trim(query) == [] then contacts else KeepMatching(contacts, Lower(query))
  }

  /** The filtered list is the input with some contacts left out, in order,
      and for a query that is not blank it holds every copy of each matching
      contact. */
  lemma FilterOrder(contacts: seq<Contact>, query: string)
    ensures IsSubsequence(FilterContacts(contacts, query), contacts)
    ensures !AllSpace(query) ==>
              forall c :: multiset(FilterContacts(contacts, query))[c] ==
                (if MatchesQuery(c, Lower(query)) then multiset(contacts)[c] else 0)
  {
    if AllSpace(query) {
      SubsequenceRefl(contacts);
    } else {
      KeepMatchingSubsequence(contacts, Lower(query));
      forall c ensures multiset(FilterContacts(contacts, query))[c] ==
                 if MatchesQuery(c, Lower(query)) then multiset(contacts)[c] else 0
      {
        KeepMatchingCounts(contacts, Lower(query), c);
      }
    }
  }

  /** For a query that is not blank, a contact without position and
      department matches exactly when one of its other fields does: the
      absent fields count for nothing, as `?.includes` on `undefined` does. */
  lemma EmptyFieldNeverMatches(c: Contact, query: string)
    requires !AllSpace(query) && c.position == "" && c.department == ""
    ensures var q := Lower(query);
      MatchesQuery(c, q) <==>
        || Contains(Lower(c.name), q)
        || Contains(Lower(c.company), q)
        || AnyContains(PhoneNumbers(c.phones), q)
        || AnyContains(EmailAddresses(c.emails), q)
        || Contains(Lower(c.notes), q)
        || AnyContains(c.tags, q)
  {
    var q := Lower(query);
    assert q != [] by {
      if query != [] {
        assert |q| == |query|;
      }
    }
    assert !Contains(Lower(""), q);
  }

  // ---------------------------------------------------------------------------
  // The state and its invariant
  // ---------------------------------------------------------------------------

  const InitialContactState: ContactState := ContactState([], None, "", [])

  /** The filtered list is the filter of the contact list by the query. */
  predicate Consistent(s: ContactState)
  {
    s.filteredContacts == FilterContacts(s.contacts, s.searchQuery)
  }

  lemma InitialConsistent()
    ensures Consistent(InitialContactState)
  {
  }

  /** The fields of `Partial<Contact>`: None is a field the update leaves out.
      `updatedAt` is missing because the update always overwrites it. */
  datatype ContactPatch = ContactPatch(
    id: Option<string>,
    name: Option<string>,
    company: Option<string>,
    position: Option<string>,
    department: Option<string>,
    phones: Option<seq<ContactPhone>>,
    emails: Option<seq<ContactEmail>>,
    addresses: Option<seq<ContactAddress>>,
    websites: Option<seq<string>>,
    socialMedia: Option<seq<SocialMedia>>,
    notes: Option<string>,
    avatar: Option<Option<string>>,
    businessCardImage: Option<Option<string>>,
    createdAt: Option<int>,
    tags: Option<seq<string>>)

  /** A field after a spread: the update's value when the update carries one,
      else the value before. */
  ghost predicate Takes<T>(u: Option<T>, before: T, after: T)
  {
    match u
    case Some(v) => after == v
    case None => after == before
  }

  /** `{ ...contact, ...updates, updatedAt: now }`: every field the update
      carries is replaced, every other field is kept, and the modification
      time is `now` whatever the update says. */
  function Merge(c: Contact, p: ContactPatch, now: int): (r: Contact)
    ensures r.updatedAt == now
    ensures Takes(p.id, c.id, r.id) && Takes(p.name, c.name, r.name)
    ensures Takes(p.company, c.company, r.company) && Takes(p.position, c.position, r.position)
    ensures Takes(p.department, c.department, r.department)
    ensures Takes(p.phones, c.phones, r.phones) && Takes(p.emails, c.emails, r.emails)
    ensures Takes(p.addresses, c.addresses, r.addresses) && Takes(p.websites, c.websites, r.websites)
    ensures Takes(p.socialMedia, c.socialMedia, r.socialMedia) && Takes(p.notes, c.notes, r.notes)
    ensures Takes(p.avatar, c.avatar, r.avatar)
    ensures Takes(p.businessCardImage, c.businessCardImage, r.businessCardImage)
    ensures Takes(p.createdAt, c.createdAt, r.createdAt) && Takes(p.tags, c.tags, r.tags)
  {
    Contact(
      Pick(p.id, c.id), Pick(p.name, c.name), Pick(p.company, c.company),
      Pick(p.position, c.position), Pick(p.department, c.department),
      Pick(p.phones, c.phones), Pick(p.emails, c.emails), Pick(p.addresses, c.addresses),
      Pick(p.websites, c.websites), Pick(p.socialMedia, c.socialMedia), Pick(p.notes, c.notes),
      Pick(p.avatar, c.avatar), Pick(p.businessCardImage, c.businessCardImage),
      Pick(p.createdAt, c.createdAt), now, Pick(p.tags, c.tags))
  }

  /** The update that leaves every field out. */
  const NoChange: ContactPatch :=
    ContactPatch(None, None, None, None, None, None, None, None, None, None, None, None, None, None, None)

  /** An update with no fields only refreshes the modification time. */
  lemma MergeNoChange(c: Contact, now: int)
    ensures Merge(c, NoChange, now) == c.(updatedAt := now)
  {
  }

  /** Applying the same update twice at the same time is applying it once. */
  lemma MergeIdempotent(c: Contact, p: ContactPatch, now: int)
    ensures Merge(Merge(c, p, now), p, now) == Merge(c, p, now)
  {
  }

  // ---------------------------------------------------------------------------
  // Actions
  // ---------------------------------------------------------------------------

  /** `addContact`: the new contact, with the given id and both timestamps
      `now`, goes at the end; the id and timestamps the caller's record
      carries are replaced. */
  function AddContact(s: ContactState, data: Contact, id: string, now: int): (r: ContactState)
    ensures |r.contacts| == |s.contacts| + 1
    ensures r.contacts[..|s.contacts|] == s.contacts
    ensures r.contacts[|s.contacts|] == data.(id := id, createdAt := now, updatedAt := now)
    ensures r.selectedContact == s.selectedContact && r.searchQuery == s.searchQuery
    ensures Consistent(r)
  {
    var contacts := s.contacts + [data.(id := id, createdAt := now, updatedAt := now)];
    s.(contacts := contacts, filteredContacts := FilterContacts(contacts, s.searchQuery))
  }

  /** The ids of the list are pairwise different. */
  predicate UniqueIds(contacts: seq<Contact>)
  {
    forall i, j :: 0 <= i < j < |contacts| ==> contacts[i].id != contacts[j].id
  }

  /** Adding under an id the list does not use keeps the ids unique. */
  lemma AddKeepsIdsUnique(s: ContactState, data: Contact, id: string, now: int)
    requires UniqueIds(s.contacts)
    requires forall i :: 0 <= i < |s.contacts| ==> s.contacts[i].id != id
    ensures UniqueIds(AddContact(s, data, id, now).contacts)
  {
    var r := AddContact(s, data, id, now).contacts;
    forall i, j | 0 <= i < j < |r| ensures r[i].id != r[j].id {
      if j < |s.contacts| {
        assert r[i] == s.contacts[i] && r[j] == s.contacts[j];
      } else {
        assert r[i] == s.contacts[i];
      }
    }
  }

  function UpdateAll(contacts: seq<Contact>, id: string, p: ContactPatch, now: int): (r: seq<Contact>)
    ensures |r| == |contacts|
    ensures forall i :: 0 <= i < |contacts| ==>
              r[i] == if contacts[i].id == id then Merge(contacts[i], p, now) else contacts[i]
  {
    seq(|contacts|, i requires 0 <= i < |contacts| =>
      if contacts[i].id == id then Merge(contacts[i], p, now) else contacts[i])
  }

  /** `updateContact`: every contact with the id receives the update and the
      time `now`; the others stay as they were, and so does the length. A
      selected contact with the id receives the same update. */
  function UpdateContact(s: ContactState, id: string, p: ContactPatch, now: int): (r: ContactState)
    ensures |r.contacts| == |s.contacts|
    ensures forall i :: 0 <= i < |s.contacts| && s.contacts[i].id != id ==> r.contacts[i] == s.contacts[i]
    ensures forall i :: 0 <= i < |s.contacts| && s.contacts[i].id == id ==> r.contacts[i] == Merge(s.contacts[i], p, now)
    ensures s.selectedContact.Some? && s.selectedContact.value.id == id ==>
              r.selectedContact == Some(Merge(s.selectedContact.value, p, now))
    ensures !(s.selectedContact.Some? && s.selectedContact.value.id == id) ==>
              r.selectedContact == s.selectedContact
    ensures r.searchQuery == s.searchQuery
    ensures Consistent(r)
  {
    var contacts := UpdateAll(s.contacts, id, p, now);
    var selected :=
      if s.selectedContact.Some? && s.selectedContact.value.id == id
      then Some(Merge(s.selectedContact.value, p, now))
      else s.selectedContact;
    ContactState(contacts, selected, s.searchQuery, FilterContacts(contacts, s.searchQuery))
  }

  /** The contacts whose id is not `id`, in order. */
  function Without(contacts: seq<Contact>, id: string): (r: seq<Contact>)
    ensures |r| <= |contacts|
    ensures forall c :: c in r <==> c in contacts && c.id != id
  {
    if contacts == [] then []
    else (if contacts[0].id != id then [contacts[0]] else []) + Without(contacts[1..], id)
  }

  lemma {:induction false} WithoutSubsequence(contacts: seq<Contact>, id: string)
    ensures IsSubsequence(Without(contacts, id), contacts)
    decreases |contacts|
  {
    if contacts != [] {
      WithoutSubsequence(contacts[1..], id);
      var r := Without(contacts, id);
      var rest := Without(contacts[1..], id);
      if contacts[0].id != id {
        assert r == [contacts[0]] + rest;
        assert r[0] == contacts[0] && r[1..] == rest;
      } else {
        assert r == rest;
      }
    }
  }

  lemma {:induction false} WithoutCounts(contacts: seq<Contact>, id: string, c: Contact)
    ensures multiset(Without(contacts, id))[c] == if c.id != id then multiset(contacts)[c] else 0
    decreases |contacts|
  {
    if contacts != [] {
      WithoutCounts(contacts[1..], id, c);
      assert contacts == [contacts[0]] + contacts[1..];
    }
  }

  /** `deleteContact`: the contacts with the id are removed, the others stay
      in order, and the selection is cleared exactly when it had the id. */
  function DeleteContact(s: ContactState, id: string): (r: ContactState)
    ensures forall c :: c in r.contacts <==> c in s.contacts && c.id != id
    ensures s.selectedContact.Some? && s.selectedContact.value.id == id ==> r.selectedContact == None
    ensures !(s.selectedContact.Some? && s.selectedContact.value.id == id) ==>
              r.selectedContact == s.selectedContact
    ensures r.searchQuery == s.searchQuery
    ensures Consistent(r)
  {
    var contacts := Without(s.contacts, id);
    var selected :=
      if s.selectedContact.Some? && s.selectedContact.value.id == id then None else s.selectedContact;
    ContactState(contacts, selected, s.searchQuery, FilterContacts(contacts, s.searchQuery))
  }

  /** A deletion keeps the others in order and every copy of them. */
  lemma DeleteOrder(s: ContactState, id: string)
    ensures IsSubsequence(DeleteContact(s, id).contacts, s.contacts)
    ensures forall c :: multiset(DeleteContact(s, id).contacts)[c] ==
              if c.id != id then multiset(s.contacts)[c] else 0
  {
    WithoutSubsequence(s.contacts, id);
    forall c ensures multiset(DeleteContact(s, id).contacts)[c] ==
               if c.id != id then multiset(s.contacts)[c] else 0
    {
      WithoutCounts(s.contacts, id, c);
    }
  }

  /** `selectContact`: only the selection changes. */
  function SelectContact(s: ContactState, c: Option<Contact>): (r: ContactState)
    ensures r.selectedContact == c
    ensures r.contacts == s.contacts && r.searchQuery == s.searchQuery
    ensures r.filteredContacts == s.filteredContacts
    ensures Consistent(s) ==> Consistent(r)
  {
    s.(selectedContact := c)
  }

  /** `setSearchQuery`: the query changes and the filtered list follows it. */
  function SetSearchQuery(s: ContactState, query: string): (r: ContactState)
    ensures r.searchQuery == query
    ensures r.contacts == s.contacts && r.selectedContact == s.selectedContact
    ensures Consistent(r)
  {
    s.(searchQuery := query, filteredContacts := FilterContacts(s.contacts, query))
  }

  /** In a consistent state, every contact shown is in the list, and after a
      deletion none shown has the deleted id. */
  lemma ShownAreStored(s: ContactState, id: string)
    requires Consistent(s)
    ensures forall c :: c in s.filteredContacts ==> c in s.contacts
    ensures forall c :: c in DeleteContact(s, id).filteredContacts ==> c.id != id
  {
    var r := DeleteContact(s, id);
    assert forall c :: c in r.filteredContacts ==> c in r.contacts;
  }
}
