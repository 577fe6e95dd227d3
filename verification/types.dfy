/** The record shapes of the contact book (src/types/index.ts).

    Optional string members (`position?`, `department?`) are modelled as plain
    strings in which "" stands for an absent value: every consumer in the
    application tests them with `||`, `?.` or `if (...)`, which treat
    `undefined` and "" alike. Dates are integer millisecond timestamps. */
module Types {

  datatype Option<T> = None | Some(value: T)

  /** A field of an update patch: the patch's value when present, else the
      current one, as in `{ ...current, ...patch }`. */
  function Pick<T>(update: Option<T>, current: T): T
  {
    if update.Some? then update.value else current
  }

  /** No element occurs twice. */
  predicate Distinct<T(==)>(xs: seq<T>)
  {
    forall i, j :: 0 <= i < j < |xs| ==> xs[i] != xs[j]
  }

  /** The concatenation of a sequence of sequences, front to back. */
  function Flatten<T>(xss: seq<seq<T>>): (r: seq<T>)
  {
    if xss == [] then [] else xss[0] + Flatten(xss[1..])
  }

  lemma {:induction false} FlattenSnoc<T>(xss: seq<seq<T>>, xs: seq<T>)
    ensures Flatten(xss + [xs]) == Flatten(xss) + xs
    decreases |xss|
  {
    if xss == [] {
      assert [xs][1..] == [];
    } else {
      assert (xss + [xs])[1..] == xss[1..] + [xs];
      FlattenSnoc(xss[1..], xs);
    }
  }

  /** Every element of a flattening comes from one of the parts. */
  lemma {:induction false} FlattenAll<T>(xss: seq<seq<T>>, P: T -> bool)
    requires forall i, k :: 0 <= i < |xss| && 0 <= k < |xss[i]| ==> P(xss[i][k])
    ensures forall k :: 0 <= k < |Flatten(xss)| ==> P(Flatten(xss)[k])
    decreases |xss|
  {
    if xss != [] {
      var tail := xss[1..];
      assert forall i, k :: 0 <= i < |tail| && 0 <= k < |tail[i]| ==> tail[i][k] == xss[i + 1][k];
      FlattenAll(tail, P);
      var r := Flatten(xss);
      forall k | 0 <= k < |r| ensures P(r[k]) {
        if k < |xss[0]| {
          assert r[k] == xss[0][k];
        } else {
          assert r[k] == Flatten(tail)[k - |xss[0]|];
        }
      }
    }
  }

  /** The `type` tag of a telephone entry. */
  datatype PhoneType = Mobile | Work | Home | Fax

  /** The `type` tag of an e-mail entry. */
  datatype EmailType = WorkEmail | Personal

  // `label` is a Dafny keyword, so the display label is called `displayLabel`.
  datatype ContactPhone = ContactPhone(id: string, displayLabel: string, number: string, kind: PhoneType)

  datatype ContactEmail = ContactEmail(id: string, displayLabel: string, email: string, kind: EmailType)

  datatype ContactAddress = ContactAddress(
    id: string,
    displayLabel: string,
    street: string,
    city: string,
    state: string,
    postalCode: string,
    country: string)

  datatype SocialMedia = SocialMedia(id: string, platform: string, handle: string)

  datatype Contact = Contact(
    id: string,
    name: string,
    company: string,
    position: string,
    department: string,
    phones: seq<ContactPhone>,
    emails: seq<ContactEmail>,
    addresses: seq<ContactAddress>,
    websites: seq<string>,
    socialMedia: seq<SocialMedia>,
    notes: string,
    avatar: Option<string>,
    businessCardImage: Option<string>,
    createdAt: int,
    updatedAt: int,
    tags: seq<string>)

  /** The numbers of the phone entries, in order. */
  function PhoneNumbers(ps: seq<ContactPhone>): (r: seq<string>)
    ensures |r| == |ps|
    ensures forall i :: 0 <= i < |ps| ==> r[i] == ps[i].number
  {
    seq(|ps|, i requires 0 <= i < |ps| => ps[i].number)
  }

  /** The addresses of the e-mail entries, in order. */
  function EmailAddresses(es: seq<ContactEmail>): (r: seq<string>)
    ensures |r| == |es|
    ensures forall i :: 0 <= i < |es| ==> r[i] == es[i].email
  {
    seq(|es|, i requires 0 <= i < |es| => es[i].email)
  }

  /** The lower-case spelling that `toUpperCase` turns into the vCard TYPE parameter. */
  function PhoneTypeName(t: PhoneType): string
  {
    match t
    case Mobile => "mobile"
    case Work => "work"
    case Home => "home"
    case Fax => "fax"
  }

  function EmailTypeName(t: EmailType): string
  {
    match t
    case WorkEmail => "work"
    case Personal => "personal"
  }
}
