/**
 * `UserConverter`: a Freshdesk user record to the Zendesk user payload.
 * Timestamps go through `utc`, the model of `Util.utc_format`.
 */
module UserConverter {
  import opened Wrappers
  import Text

  /** The string-valued entries of a JSON object; a JSON null is None. */
  type Fields = map<string, Option<string>>

  /** `hash[key]`: nil for a missing key or a null value. */
  function Field(f: Fields, key: string): Option<string> {
    if key in f then f[key] else None
  }

  /** The parts of a Freshdesk user (contact or agent) the importer reads. */
  datatype FdUser = FdUser(id: int, email: Option<string>, name: Option<string>, contact: Option<Fields>,
                           createdAt: string, updatedAt: string)

  /** The payload for one user of a create_many request: exactly these five keys. */
  datatype ZdUser = ZdUser(email: Option<string>, name: Option<string>, externalId: string,
                           createdAt: string, updatedAt: string)

  const EXTERNAL_ID_PREFIX := "fd"

  /** `fd_user['contact'].present?`: a non-empty contact object. */
  predicate ContactPresent(u: FdUser) {
    u.contact.Some? && |u.contact.value| > 0
  }

  /** `email`: the contact's email when a contact is present, else the top-level email. */
  function Email(u: FdUser): (r: Option<string>)
    ensures ContactPresent(u) ==> r == Field(u.contact.value, "email")
    ensures !ContactPresent(u) ==> r == u.email
  {
    if ContactPresent(u) then Field(u.contact.value, "email") else u.email
  }

  /** `name`: the same precedence as `email`. */
  function Name(u: FdUser): (r: Option<string>)
    ensures ContactPresent(u) ==> r == Field(u.contact.value, "name")
    ensures !ContactPresent(u) ==> r == u.name
  {
    if ContactPresent(u) then Field(u.contact.value, "name") else u.name
  }

  /** `external_id`: "fd" followed by the source id in decimal. */
  function ExternalId(id: int): (r: string)
    ensures |r| > |EXTERNAL_ID_PREFIX| && r[..|EXTERNAL_ID_PREFIX|] == EXTERNAL_ID_PREFIX
  {
    Text.NatToStringDigits(if id < 0 then -id else id);
    EXTERNAL_ID_PREFIX + Text.IntToString(id)
  }

  /** The source id can be read back from the external id, so distinct users get distinct external ids. */
  lemma ExternalIdRoundTrip(id: int)
    ensures Text.ParseInt(ExternalId(id)[|EXTERNAL_ID_PREFIX|..]) == Some(id)
  {
    assert ExternalId(id)[|EXTERNAL_ID_PREFIX|..] == Text.IntToString(id);
    Text.IntToStringRoundTrip(id);
  }

  lemma ExternalIdInjective(a: int, b: int)
    requires ExternalId(a) == ExternalId(b)
    ensures a == b
  {
    ExternalIdRoundTrip(a);
    ExternalIdRoundTrip(b);
  }

  /** `convert`. */
  function Convert(u: FdUser, utc: string -> string): ZdUser {
    ZdUser(Email(u), Name(u), ExternalId(u.id), utc(u.createdAt), utc(u.updatedAt))
  }

  /**
   * The payload's email and name come from the same object (the contact when
   * present, else the top level), its external id identifies the source
   * user, and its timestamps are the source's in UTC form.
   */
  lemma ConvertSpec(u: FdUser, utc: string -> string)
    ensures var z := Convert(u, utc);
      && (ContactPresent(u) ==> z.email == Field(u.contact.value, "email") && z.name == Field(u.contact.value, "name"))
      && (!ContactPresent(u) ==> z.email == u.email && z.name == u.name)
      && Text.ParseInt(z.externalId[|EXTERNAL_ID_PREFIX|..]) == Some(u.id)
      && z.createdAt == utc(u.createdAt) && z.updatedAt == utc(u.updatedAt)
  {
    ExternalIdRoundTrip(u.id);
  }

  /** An empty contact object counts as absent: the top-level fields are used. */
  lemma EmptyContactIgnored(u: FdUser, utc: string -> string)
    requires u.contact == Some(map[])
    ensures Convert(u, utc).email == u.email && Convert(u, utc).name == u.name
  {
  }
}
