/** The authorization gate: a single configured administrator. */
module Auth {

  /** The administrator's Telegram user id. */
  const AdminId: int := 6319246165

  /** `isAdmin`: strict equality with the administrator's id. */
  predicate IsAdmin(userId: int) {
    userId == AdminId
  }

  /** The gate admits exactly one identity: the configured id passes, and any two ids
      that pass are the same id. */
  lemma OneAdmin(u: int, v: int)
    ensures IsAdmin(AdminId)
    ensures IsAdmin(u) && IsAdmin(v) ==> u == v
  {
  }
}
