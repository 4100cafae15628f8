/** Document metadata, the visibility rules of the access-control list and the
    governance policy that decides which sources may be retrieved at all. */
module Acl {
  import opened Prelude

  datatype User = User(id: string, department: string, roles: set<string>)

  /** Normalised access metadata; `""` stands for a missing value. */
  datatype AclMetadata = AclMetadata(classification: string, department: string, visibility: string, owner: string)

  /** What the manifest keeps next to the active revision of a source. */
  datatype SourceMetadata = SourceMetadata(authority: string, status: string, control: string, acl: AclMetadata)

  const CLASSIFICATIONS := {"policy", "process", "benefit", "technical", "other"}
  const VISIBILITIES := {"private", "department", "all"}

  predicate IsCodeChar(c: char) {
    'A' <= c <= 'Z' || 'a' <= c <= 'z' || '0' <= c <= '9' || c == '_' || c == '-'
  }

  predicate IsDepartmentCode(s: string) {
    && 1 <= |s| <= 64
    && s[0] != '_' && s[0] != '-'
    && forall c :: c in s ==> IsCodeChar(c)
  }

  function OrElse(s: string, default: string): string { if s == "" then default else s }

  /** Validate and normalise the metadata of an upload; `None` is the rejected request. */
  function Normalize(raw: AclMetadata): Option<AclMetadata> {
    var classification := Lower(Trim(OrElse(raw.classification, "other")));
    var department := Lower(Trim(OrElse(raw.department, "general")));
    var visibility := Lower(Trim(OrElse(raw.visibility, "all")));
    var trimmed := Trim(raw.owner);
    var owner := if |trimmed| > 128 then trimmed[..128] else trimmed;
    if classification !in CLASSIFICATIONS || visibility !in VISIBILITIES then None
    else if !IsDepartmentCode(department) || (visibility == "private" && owner == "") then None
    else Some(AclMetadata(classification, department, visibility, owner))
  }

  predicate IsAdmin(user: User) { "admin" in user.roles }

  predicate IsEditor(user: User) { "editor" in user.roles }

  predicate Complete(m: AclMetadata) {
    var visibility := Lower(Trim(m.visibility));
    && visibility in VISIBILITIES
    && Trim(m.department) != ""
    && (visibility != "private" || Trim(m.owner) != "")
  }

  predicate CanCreate(user: User, m: AclMetadata) {
    || IsAdmin(user)
    || (&& IsEditor(user)
        && Lower(Trim(m.visibility)) in {"private", "department"}
        && Lower(Trim(m.department)) == Lower(Trim(user.department)))
  }

  predicate CanUpdate(user: User, m: AclMetadata) {
    IsAdmin(user) || (IsEditor(user) && m.owner == user.id && CanCreate(user, m))
  }

  predicate CanDelete(user: User, m: AclMetadata) {
    IsAdmin(user) || CanUpdate(user, m)
  }

  /** `document_visible_to_user` for a known user; an incomplete list shows nothing to non-admins. */
  predicate VisibleTo(user: User, m: AclMetadata) {
    || IsAdmin(user)
    || (&& Complete(m)
        && var visibility := Lower(Trim(m.visibility));
           || visibility == "all"
           || (visibility == "department" && Lower(m.department) == Lower(user.department))
           || (visibility == "private" && m.owner == user.id))
  }

  datatype Policy = Unresolved | Authoritative | AllActive

  /** `source_allowed_for_retrieval` */
  predicate Allowed(m: SourceMetadata, policy: Policy) {
    var status := OrElse(m.status, "active");
    var authority := OrElse(m.authority, "unconfirmed");
    && status == "active"
    && authority !in {"draft", "superseded"}
    && match policy
       case Unresolved => false
       case Authoritative => authority == "authoritative"
       case AllActive => true
  }
}
