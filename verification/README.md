# MeishiBox core in Dafny

MeishiBox is a business-card app. It reads the text that OCR finds on a card,
turns that text into a contact record, keeps contacts, settings and a
subscription in stores, and exports contacts as CSV or vCard. This project
models the pure core of that app as Dafny datatypes and functions and proves
what the core does.

- **`types.dfy`** (`Types`): the contact record and its parts (phones,
  e-mails, addresses, social-media handles), plus `Option`, `Distinct` and
  `Flatten`.
- **`text.dfy`** (`Text`): the JavaScript string operations the core relies
  on:
  - `trim` with the white-space set of `\s`;
  - `split` and `join`, `includes`, `startsWith` and `endsWith`;
  - ASCII case mapping;
  - the digits of a string, as left by `replace(/\D/g, '')`.
- **`patterns.dfy`** (`Patterns`): each regular expression of the parser as a
  small scanner. Each scanner finds the leftmost match and captures greedily,
  with the same backtracking outcome as the pattern. The patterns are
  telephone, fax, e-mail, website, postal code and the `〒` postal mark that
  is removed from an address line.
- **`card_parser.dfy`** (`CardParser`): `parseBusinessCardText`, modelled as
  a walk over the trimmed non-empty lines. Each step of the walk is one
  iteration of the `forEach` body, followed by the defaults for name and
  company. Ids come from a caller-supplied stream `ids`, in the order the
  source calls `generateId`. The clock is the parameter `now`. The walk
  checks for a repeated website the way the code does, on the raw match.
  `ParseBusinessCardTextCorrected` is the same parser with that check made
  on the stored form (see "## Findings").
- **`parser_facts.dfy`** (`ParserFacts`): what the parser produces, stated
  against reference definitions that do not walk the lines, such as "the
  first line with a company keyword" (`FirstIndex`).
- **`helpers.dfy`** (`Helpers`): phone formatting and validation, e-mail
  validation, initials, display name, completeness, emptiness and the sort
  by creation date.
- **`csv.dfy`** (`Csv`): the CSV export, with its headers, field values and
  cell quoting. It also has a reader for quoted rows, which proves that a
  row reads back as its values.
- **`vcard.dfy`** (`VCard`): `contactToVCF`. The card is built as a list of
  blocks, one per property name, and each property's lines are read back by
  name.
- **`contact_store.dfy`** (`ContactStore`): the contact store's actions as
  pure state transitions. Every action keeps the invariant
  `filteredContacts == filterContacts(contacts, searchQuery)`.
- **`subscription_store.dfy`** (`SubscriptionStore`) and **`app_store.dfy`**
  (`AppStore`): the subscription and settings stores as pure state
  transitions.
- **`mock_card.dfy`** (`MockCard`): the sample card that `processBusinessCard`
  hands to the parser in place of a real recognition, and the contact record
  the parser makes of it. The postal line is the first address line, so the
  stored street is the line itself (`〒103-0016`) and the street line after
  it is not used. The e-mail line gives the website `http://ptm-tokyo.co.jp`,
  and the website line repeats it, so it is stored once. The code as written
  gives the same list here, because the repeated match already carries
  "http://".
- **`duplicate_websites.dfy`** (`DuplicateWebsites`): the repeated website
  on whole texts. A bare domain on two lines, such as
  `example.com\nexample.com`, gives two equal websites in the parser and one
  in the corrected parser.
- **`card_flow.dfy`** (`CardFlow`): properties that connect the parser to the
  helpers and the store, e.g. a scanned card is found again by searching for
  its name.

Some behaviour of the code differs from what a reader of its comments would
expect. The model follows the code in each case:

- `isPersonName` never has an effect. Line 0 always sets the name first, and
  the name is never replaced (`ParserFacts.ParseName`).
- The class `[ひらがなカタカナ]` holds seven literal characters. It does not
  hold the Hiragana or Katakana blocks (`CardParser.PersonNameChars`).
- The website pattern also matches the domain of an e-mail address. So a card
  with an e-mail address always has a website
  (`ParserFacts.ParseEmailGivesWebsite`).
- The postal-code pattern has no anchors. Three digits, an optional '-' and
  four digits anywhere on a line make it an address line, if no address has
  been taken yet. A telephone number such as `03-6264-9166` contains
  `264-9166`, so it qualifies.
- In `formatPhoneNumber` the `090` branch can never be reached: an 11-digit
  number starting with `090` already starts with `0`
  (`Helpers.MobileBranchSubsumed`).
- `updateScansRemaining` sets the count. It does not decrement it.
- The website list can hold the same website twice. The code compares the
  raw match with entries that already carry "http://", so a bare domain on
  two lines is stored twice (`DuplicateWebsites.ParseDuplicateAsWritten`).

## Model

| member | source | states |
|---|---|---|
| CardParser.Lines | src/services/ocrService.ts:37 | every line is trimmed and non-empty |
| ParserFacts.LinesEmptyIff | src/services/ocrService.ts:37 | there are no lines exactly when the text is empty or white space |
| ParserFacts.TrimmedNonEmptyIff | src/services/ocrService.ts:37 | the filter drops every piece exactly when every piece is blank |
| ParserFacts.SplitAllSpace | src/services/ocrService.ts:37 | the pieces of a split on a white-space separator are all blank exactly when the whole text is |
| ParserFacts.ParseBlank | src/services/ocrService.ts:39-55 | a blank text gives empty name, company, position and department and no phones, e-mails, addresses or websites |
| CardParser.ParseBusinessCardText | src/services/ocrService.ts:39-55 | the record takes the first id, the image URI and `now` for both timestamps; notes, tags and social media are empty |
| ParserFacts.ParseName | src/services/ocrService.ts:60-64 | the name is the first line whatever `isPersonName` says, and it is empty exactly for a blank text |
| ParserFacts.ScanName | src/services/ocrService.ts:60-64 | after the walk, the name is the first line |
| ParserFacts.ParseCompany | src/services/ocrService.ts:67-69 | the company is the first line with a company keyword, else the second line, else "" |
| ParserFacts.ScanCompany | src/services/ocrService.ts:67-69 | the company set during the walk is the first company-keyword line, or "" |
| CardParser.IsPersonName | src/services/ocrService.ts:157-160 | a line is a person name when it is at most ten UTF-16 code units long and holds one of the seven characters ひ, ら, が, な, カ, タ, ナ |
| CardParser.PersonNameLength | src/services/ocrService.ts:157-160 | a person name has at most ten characters; without characters beyond U+FFFF it is exactly a text of at most ten characters holding one of the seven class characters |
| CardParser.IsCompanyName | src/services/ocrService.ts:162-165 | a line is a company name when it contains one of the ten company keywords |
| CardParser.CompanyNameIff | src/services/ocrService.ts:162-165 | a line is a company name exactly when one of the ten keywords occurs at some position of it, so it has at least two characters |
| CardParser.IsPosition | src/services/ocrService.ts:167-173 | a line is a position when it contains one of the sixteen position keywords |
| CardParser.PositionIff | src/services/ocrService.ts:167-173 | a line is a position exactly when one of the sixteen keywords occurs at some position of it, so it has at least two characters |
| ParserFacts.ParseRoles | src/services/ocrService.ts:72-78 | the department is the first position line containing '部'; the position is the first other position line |
| ParserFacts.ScanDepartment | src/services/ocrService.ts:73-74 | the department set during the walk is the first position line containing '部' |
| ParserFacts.ScanPosition | src/services/ocrService.ts:72-77 | the position set during the walk is the first position line other than the one that became the department |
| CardParser.PhoneKindOf | src/services/ocrService.ts:83 | a phone is mobile exactly when the lower-cased line contains "mobile" or "携帯", otherwise work |
| CardParser.TelEntries | src/services/ocrService.ts:81-90 | a telephone entry exists exactly when the pattern matches; it is the trimmed capture with the label and kind of the line |
| CardParser.FaxEntries | src/services/ocrService.ts:93-101 | a fax entry exists exactly when the fax pattern matches; it has label "FAX" and kind fax |
| CardParser.LinePhones | src/services/ocrService.ts:81-101 | a line adds at most two phones, telephone before fax, each well formed, and each present exactly when its pattern matches |
| CardParser.TrimNumber | src/services/ocrService.ts:87 | a trimmed capture has only number characters and no space at either end |
| ParserFacts.ParsePhones | src/services/ocrService.ts:81-101 | the phones are the entries of each line in line order, at most two per line, each well formed |
| ParserFacts.ScanPhones | src/services/ocrService.ts:81-101 | the walk appends each line's phone entries in order |
| Patterns.PhoneMatch | src/services/ocrService.ts:81 | a capture is a non-empty run of digits, '-', '+', '(', ')' and white space |
| Patterns.FaxMatch | src/services/ocrService.ts:93 | a capture is a non-empty run of digits, '-', '+', '(', ')' and white space |
| Patterns.NumberAfterLabel | src/services/ocrService.ts:81 | after a label, the capture fails exactly when no number character follows within the separator run |
| Patterns.LabelEnd | src/services/ocrService.ts:81 | a label matches exactly when one of the alternatives matches case-insensitively at that position |
| Patterns.FindFirst | src/services/ocrService.ts:81 | the leftmost position where the pattern matches is found, and nothing to its left matches |
| CardParser.LineEmails | src/services/ocrService.ts:104-112 | a line adds an e-mail exactly when the e-mail pattern matches, with label "メール" and kind work |
| Patterns.EmailMatch | src/services/ocrService.ts:104 | every match has exactly one '@' and ends in '.' and two or more ASCII letters |
| ParserFacts.ParseEmails | src/services/ocrService.ts:104-112 | the e-mails are the matches of each line in line order, at most one per line, each with that shape |
| ParserFacts.ScanEmails | src/services/ocrService.ts:104-112 | the walk appends each line's e-mail entry in order |
| Patterns.WebsiteMatch | src/services/ocrService.ts:115 | a match is a non-empty run of non-space characters |
| Patterns.WebsiteAt | src/services/ocrService.ts:115 | wherever the bare-domain alternative matches, the website pattern matches |
| CardParser.StoredWebsite | src/services/ocrService.ts:117-120 | the stored website starts with "http"; "http://" is put in front only when the match lacks it |
| CardParser.WebsiteStepAsWritten | src/services/ocrService.ts:115-122 | the list grows by one exactly when there is a match and the raw match is not yet in the list |
| CardParser.WebsiteDuplicateAsWritten | src/services/ocrService.ts:116 | as written, the same bare domain on two lines is stored twice |
| CardParser.WebsiteStep | src/services/ocrService.ts:115-122 | corrected step: the list grows by one exactly when the stored form is new, and it stays free of duplicates |
| CardParser.WebsiteOnce | src/services/ocrService.ts:115-122 | corrected step: the same bare domain on two lines is stored once |
| ParserFacts.ParseWebsites | src/services/ocrService.ts:115-122 | every website starts with "http", and there is at most one per line |
| CardParser.WebsitesFold | src/services/ocrService.ts:115-122 | corrected fold: every entry starts with "http", none is stored twice, and there is at most one per match |
| CardParser.ParseBusinessCardTextCorrected | src/services/ocrService.ts:115-122 | the corrected parser differs from the code only in its website list, which starts every entry with "http", holds no duplicates and has at most one entry per line |
| ParserFacts.FoldsAgree | src/services/ocrService.ts:115-122 | when no match is a bare domain, the fold as written and the corrected fold build the same list |
| ParserFacts.ParseCorrectedAgrees | src/services/ocrService.ts:115-122 | when every line's website match starts with "http", the corrected parser returns the same record as the code |
| DuplicateWebsites.ParseDuplicateAsWritten | src/services/ocrService.ts:115-121 | for a trimmed bare domain d that the website pattern matches whole, the text "d\nd" gives the website "http://d" twice |
| DuplicateWebsites.ParseDuplicateCorrected | src/services/ocrService.ts:115-121 | with the corrected check, the same text gives "http://d" once |
| DuplicateWebsites.ExampleMatch | src/services/ocrService.ts:115 | the website pattern matches all of "example.com", as a bare domain |
| DuplicateWebsites.ExampleTwice | src/services/ocrService.ts:115-121 | the text "example.com\nexample.com" gives "http://example.com" twice, and once in the corrected parser |
| ParserFacts.EmailLineHasWebsite | src/services/ocrService.ts:104-115 | a line with an e-mail match also has a website match |
| ParserFacts.ParseEmailGivesWebsite | src/services/ocrService.ts:104-122 | a parsed card with an e-mail address has at least one website |
| Patterns.PostalMatch | src/services/ocrService.ts:125 | a postal code is three digits, an optional '-', then four digits |
| Patterns.RemovePostalMark | src/services/ocrService.ts:128 | the removal never lengthens the line, and a line without '〒' is left as it is |
| CardParser.AddressOf | src/services/ocrService.ts:127-134 | the postal code is "" or well shaped, and the street of a non-empty line is never empty |
| ParserFacts.ParseAddress | src/services/ocrService.ts:125-141 | there is at most one address; there is one exactly when some line is an address line, and it comes from the first such line with city and state "" and country "日本" |
| ParserFacts.ScanAddresses | src/services/ocrService.ts:130-140 | the walk keeps only the address offered by the first line that offers one |
| CardFlow.ScannedDisplayName | src/services/ocrService.ts:145-147 | the display name of a scanned card is its first line, or the untitled placeholder for a blank text |
| CardFlow.ScannedComplete | src/services/ocrService.ts:149-151 | with two or more lines a scanned card is complete exactly when it has a phone or an e-mail |
| Helpers.FormatPhoneNumber | src/utils/helpers.ts:9-29 | 11 digits starting with '0' become ddd-dddd-dddd, 10 digits starting with "03" become dd-dddd-dddd, anything else is returned unchanged; the digits never change |
| Helpers.FormatPhoneNumberAsWritten | src/utils/helpers.ts:9-29 | the three branches of the source, the "090" branch included; the digits never change |
| Helpers.MobileBranchSubsumed | src/utils/helpers.ts:13-26 | on every input the three-branch formatter gives the same result as the two-branch `FormatPhoneNumber`: the "090" case is already covered by the '0' case |
| Helpers.FormatIdempotent | src/utils/helpers.ts:9-29 | formatting a formatted number changes nothing |
| Helpers.FormatKeepsValid | src/utils/helpers.ts:9-41 | formatting keeps a valid number valid |
| Helpers.IsValidPhoneNumber | src/utils/helpers.ts:38-41 | accepts exactly the non-empty strings of phone characters with at least ten digits |
| Helpers.IsValidEmail | src/utils/helpers.ts:32-35 | accepts exactly the strings with one '@', no white space, a non-empty local part and a '.' inside the domain with text on both sides |
| Helpers.GetInitials | src/utils/helpers.ts:55-62 | at most two characters: the upper-cased first characters of the words |
| Helpers.InitialsAreWordStarts | src/utils/helpers.ts:56-59 | joining the first characters of the parts of a split on ' ' gives the characters that start words |
| Helpers.GetContactDisplayName | src/utils/helpers.ts:139-145 | the first available of name, company, first e-mail, first phone number, else "無題の連絡先" |
| Helpers.IsContactComplete | src/utils/helpers.ts:130-136 | name and company are non-empty and there is at least one phone or e-mail; a complete contact is displayed under its name |
| Helpers.IsEmpty | src/utils/helpers.ts:158-160 | true exactly when the string is empty or only white space |
| Helpers.SortContactsByDate | src/utils/helpers.ts:121-127 | the result is a permutation of the input, ordered by creation date, newest first unless ascending |
| Helpers.InsertSorted | src/utils/helpers.ts:121-127 | inserting into a sorted list keeps it sorted |
| Csv.CsvHeaders | src/services/exportService.ts:71-78 | the given fields when there are any, else the nine defaults in order |
| Csv.FieldValue | src/services/exportService.ts:81-106 | "" for an unknown field, the text fields as they are, and the list fields as their entries joined with "; " |
| Csv.ListValueSplit | src/services/exportService.ts:91-100 | splitting a joined list at ';' gives back the entries, each after the first with its leading space |
| Csv.ListFieldSplit | src/services/exportService.ts:91-100 | the phone, e-mail and website values split back into their entries |
| Csv.Quote | src/services/exportService.ts:34 | a cell starts and ends with '"' |
| Csv.UnquoteQuote | src/services/exportService.ts:34 | removing the quotes and undoubling '"' recovers the value |
| Csv.QuoteInjective | src/services/exportService.ts:34 | different values give different cells |
| Csv.ReadEscape | src/services/exportService.ts:34 | reading an escaped value stops at the quote that closes it |
| Csv.ReadQuotedRow | src/services/exportService.ts:31-36 | a row of quoted cells joined with ',' reads back as the values |
| Csv.RowReadsBack | src/services/exportService.ts:30-37 | every row has one cell per header, and each cell reads back as the contact's value for that header |
| Csv.CsvLines | src/services/exportService.ts:27-37 | the unquoted header line, then one row per contact in input order |
| Csv.ExportCsv | src/services/exportService.ts:25-39 | the document opens with the header line, and with no contacts it is that line alone |
| Csv.CsvReadsBack | src/services/exportService.ts:25-39 | when no value holds a line break, splitting the document at '\n' gives the header line and the rows, and each row reads back |
| VCard.ContactToVcf | src/services/exportService.ts:109-167 | the card starts with "BEGIN:VCARD\nVERSION:3.0\n" and ends with "END:VCARD\n" |
| VCard.CardLines | src/services/exportService.ts:109-167 | when no field has a line break, splitting the card at '\n' gives its lines and a final empty piece |
| VCard.PropertyLines | src/services/exportService.ts:109-167 | the lines of one property name are exactly that property's block |
| VCard.NameProperties | src/services/exportService.ts:114-122 | FN and N appear once each for a non-empty name and never for an empty one |
| VCard.NameSplit | src/services/exportService.ts:116-121 | the name has two or more parts exactly when it contains a space; then the given names, a space and the family name make up the name |
| VCard.OrganisationProperties | src/services/exportService.ts:125-136 | ORG only for a company, with ";department" only for a department; TITLE only for a position |
| VCard.TelProperties | src/services/exportService.ts:139-142 | one TEL line per phone, in order, with the upper-cased kind |
| VCard.EmailProperties | src/services/exportService.ts:145-148 | one EMAIL line per e-mail, in order, with the upper-cased kind |
| VCard.AdrUrlProperties | src/services/exportService.ts:151-158 | one ADR line per address and one URL line per website, in order |
| VCard.NoteProperty | src/services/exportService.ts:161-163 | NOTE only for non-empty notes |
| ContactStore.FilterContacts | src/store/contactStore.ts:106-127 | a blank query keeps every contact; otherwise a contact is kept exactly when the lower-cased query occurs in one of its searched fields |
| ContactStore.FilterOrder | src/store/contactStore.ts:112-126 | the result is an order-preserving subsequence, and each kept contact keeps its multiplicity |
| ContactStore.KeepMatching | src/store/contactStore.ts:112-126 | a contact is kept exactly when it matches |
| ContactStore.EmptyFieldNeverMatches | src/store/contactStore.ts:111-126 | for a non-blank query, a contact without position and department matches exactly when its name, company, phone numbers, e-mails, notes or tags do |
| ContactStore.InitialConsistent | src/store/contactStore.ts:106-109 | the initial state satisfies the filter invariant |
| ContactStore.AddContact | src/store/contactStore.ts:16-31 | one contact is appended with the new id and both timestamps `now`; the others are unchanged and the filter invariant holds |
| ContactStore.AddKeepsIdsUnique | src/store/contactStore.ts:16-31 | appending with a fresh id keeps the ids unique |
| ContactStore.UpdateContact | src/store/contactStore.ts:33-50 | the length is kept, other ids are unchanged, matching contacts and a matching selection receive the merged update, and the filter invariant holds |
| ContactStore.Merge | src/store/contactStore.ts:37 | every field the update carries replaces the contact's, every other field is kept, and the modification time is `now` whatever the update says (the same spread builds the selection at line 46) |
| ContactStore.MergeNoChange | src/store/contactStore.ts:37 | an update with no fields only refreshes the modification time |
| ContactStore.MergeIdempotent | src/store/contactStore.ts:37 | the same update applied twice at the same time is applied once |
| ContactStore.DeleteContact | src/store/contactStore.ts:52-67 | exactly the contacts with that id go, the selection is cleared only if it had the id, and the filter invariant holds |
| ContactStore.DeleteOrder | src/store/contactStore.ts:54-56 | the remaining contacts keep their order and multiplicities |
| ContactStore.SelectContact | src/store/contactStore.ts:69-71 | only the selection changes |
| ContactStore.SetSearchQuery | src/store/contactStore.ts:73-78 | the query is stored, the contacts are kept, and the filter invariant holds |
| ContactStore.ShownAreStored | src/store/contactStore.ts:52-67 | shown contacts are stored contacts, and after a delete none with that id is shown |
| CardFlow.ScannedCardFound | src/store/contactStore.ts:73-78 | a scanned card, once added, is found by searching for its name |
| SubscriptionStore.UpdateScansRemaining | src/store/subscriptionStore.ts:86-92 | the count becomes max(0, count) and no other field changes |
| SubscriptionStore.PurchaseSubscription | src/store/subscriptionStore.ts:44-69 | active; annual exactly when the product id contains "annual"; 1000 scans; expiry after 365 or 30 days; same feature keys, all enabled |
| SubscriptionStore.CheckSubscriptionStatus | src/store/subscriptionStore.ts:95-111 | the state resets to the initial free state exactly when an expiry exists and has passed; otherwise it is unchanged |
| SubscriptionStore.CheckIdempotent | src/store/subscriptionStore.ts:95-111 | a second check changes nothing |
| SubscriptionStore.PurchaseLifetime | src/store/subscriptionStore.ts:52-107 | a purchase survives every check up to its expiry and is reset by a later check |
| SubscriptionStore.FreePlanKept | src/store/subscriptionStore.ts:6-37 | the initial free state has no expiry and survives every check |
| AppStore.UpdateSettings | src/store/appStore.ts:20-24 | every field in the patch takes its value; absent fields and the first-launch flag keep theirs |
| AppStore.UpdateCompose | src/store/appStore.ts:20-24 | two updates in a row equal one update with the merged patch |
| AppStore.UpdateEmpty | src/store/appStore.ts:20-24 | the empty patch changes nothing |
| AppStore.UpdateTwice | src/store/appStore.ts:20-24 | repeating an update changes nothing more |
| AppStore.SetFirstLaunch | src/store/appStore.ts:26-28 | only the first-launch flag changes |
| Types.PhoneNumbers | src/services/exportService.ts:92 | the numbers of the phones, in order |
| ParserFacts.ParseWebsitesFold | src/services/ocrService.ts:114-122 | the websites are what the step as written leaves after taking the lines' website matches in line order |
| MockCard.MockLines | src/services/ocrService.ts:12-21 | splitting the sample text at its line breaks and trimming gives exactly its ten card lines, in order, without the template's indentation |
| MockCard.TelPhones | src/services/ocrService.ts:80-101 | the "Tel: … Fax: …" line gives the work number and then the fax number, each trimmed of the spaces that the number pattern also captures |
| MockCard.MobilePhones | src/services/ocrService.ts:80-101 | the "Mobile:" line gives one mobile entry and no fax entry |
| MockCard.MailWebsite | src/services/ocrService.ts:115 | the website pattern finds nothing in the mailbox and matches the domain after the '@' |
| MockCard.CardPhones | src/services/ocrService.ts:80-101 | for any ten-line text where only the seventh and eighth lines give phone entries, the phones are those lines' entries in order |
| MockCard.CardAddress | src/services/ocrService.ts:124-141 | for any ten-line text whose first address line is the fifth, the one address comes from the fifth line |
| MockCard.CardWebsites | src/services/ocrService.ts:114-122 | for any ten-line text where only the last two lines can give websites, the websites are the step as written applied to those two matches |
| MockCard.MockName | src/services/ocrService.ts:58-64 | the sample's name is its first line, 鴨山かほり |
| MockCard.MockCompany | src/services/ocrService.ts:66-69 | the sample's company is its second line, the first with a company keyword |
| MockCard.MockRoles | src/services/ocrService.ts:71-78 | the sample has no department, because 輸入国内事業部 contains '部' but no position keyword; its position is the fourth line, which ends in リーダー |
| MockCard.MockPhones | src/services/ocrService.ts:80-101 | the sample's phones are the work number, the fax number and the mobile number, in that order |
| MockCard.MockEmails | src/services/ocrService.ts:103-112 | the sample's one e-mail is the whole ninth line, as a work address |
| MockCard.MockAddress | src/services/ocrService.ts:124-141 | the sample's one address comes from the postal line: the street is the line itself, because removing the mark and code leaves nothing, and the postal code is 103-0016 |
| MockCard.MockWebsites | src/services/ocrService.ts:114-122 | the sample's one website is `http://ptm-tokyo.co.jp`: the e-mail domain with "http://" in front, which the website line repeats |
| MockCard.MockCardParse | src/services/ocrService.ts:11-27 | the record the parser makes of the sample card: name, company, no department, position, three phones, one e-mail, one address and one website |

## Left out

- Persistence and file I/O are not modelled: zustand `persist`, AsyncStorage, and the file writes of `exportToVCF` and `exportToExcel`. Only the text `contactToVCF` builds is modelled. The `exportContacts` dispatch and `restorePurchases` do only I/O.
- `generateId`, `new Date()` and `Date.now()` are not called; ids and the current time are parameters. Timestamps are integers in milliseconds, and numbers are unbounded integers.
- `processBusinessCard` itself is left out: it is a timer delay, a `try`/`catch` and a call of the parser. Its fixed recognised text is modelled in `MockCard`, and the record made of it is proved there. The confidence value and the empty block list of that result are not used by the parser. The commented-out ML Kit code is left out too.
- `debounce`, `throttle`, `deepClone`, `formatDate`, `capitalize`, `sanitizeString`, `generateRandomColor`, `sortContactsByName` and `sortContactsByCompany` are left out. They are timers, reflection, locale-dependent comparison or display helpers.
- `toLowerCase` and `toUpperCase` map only ASCII letters. This is exact for every keyword and label the parser compares. For `filterContacts` on non-ASCII text it is an approximation.
- Helpers.GetInitials: the first character of a word is a code point, while JavaScript's `charAt(0)` and `slice(0, 2)` count UTF-16 code units. The two differ only for characters outside the Basic Multilingual Plane. `toUpperCase` maps only ASCII letters here. JavaScript also upper-cases other letters, and some become two characters. So "émile zola" gives "ÉZ" in JavaScript and "éZ" in the model, and after "ß" becomes "SS" the `slice(0, 2)` can keep different characters.
- Helpers.SortContactsByDate: the sort is proved to be a sorted permutation. That it keeps equal dates in input order, as `Array.prototype.sort` does, is not proved. An invalid date (NaN) is not modelled.
- Optional text fields (`position`, `department`) are "" when absent. Every use in the core treats `undefined` and "" alike.
- An update patch cannot set a field to `undefined` explicitly. Each field of a patch is either present with a value or absent.
- The subscription's `expiryDate` is an integer. After persistence it comes back as a string, which the expiry check would compare differently; that is not modelled.

## Findings

| source | as written | input that shows it | evidently intended | confidence | as-written member | corrected member |
|---|---|---|---|---|---|---|
| src/services/ocrService.ts:116 | the duplicate check compares the raw match with the stored websites, which already carry "http://" | two lines `example.com` store `http://example.com` twice | a website is stored only once | high; not executed | DuplicateWebsites.ParseDuplicateAsWritten | CardParser.ParseBusinessCardTextCorrected |

The parser model follows the code and uses `CardParser.WebsiteStepAsWritten`.
`DuplicateWebsites.ParseDuplicateAsWritten` and `DuplicateWebsites.ExampleTwice`
show the repeated website on whole texts. `CardParser.WebsiteDuplicateAsWritten`
shows it for one step.

`CardParser.ParseBusinessCardTextCorrected` rebuilds the website list with the
corrected step, `CardParser.WebsiteStep`, and its contract proves that no
website is stored twice. `ParserFacts.ParseCorrectedAgrees` proves that both
parsers agree when no line's match is a bare domain. The sample card has a
bare domain, but the code still stores its website once
(`MockCard.MockWebsites`): the website line repeats the stored form, which
even the raw check finds.
