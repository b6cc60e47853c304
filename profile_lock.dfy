/** `disable_profile_fields_post`: on a user's own profile update, the
    `pre_user_first_name`, `pre_user_last_name`, `pre_user_nickname` and `pre_user_email`
    filters replace the submitted values by the current user's stored ones. */
module ProfileLock {
  import opened ShibSession
  import opened UserStore
  import opened Provisioner

  /** A submitted profile form: the four locked fields and every other field, by name. */
  datatype ProfileForm = ProfileForm(
    firstName: string,
    lastName: string,
    nickname: string,
    email: string,
    others: map<string, string>)

  /** The filtered submission, for the current user `current`. The nickname is taken
      from the stored `user_nicename`, not from the stored nickname. */
  function DisableProfileFieldsPost(submitted: ProfileForm, current: User): (r: ProfileForm)
    ensures r.firstName == current.data.firstName && r.lastName == current.data.lastName
    ensures r.nickname == current.data.nicename && r.email == current.data.email
    ensures r.others == submitted.others
  {
    ProfileForm(current.data.firstName, current.data.lastName, current.data.nicename,
                current.data.email, submitted.others)
  }

  /** Nothing the editor puts into the four locked fields reaches the store: two
      submissions that differ only there are filtered to the same form. */
  lemma LockIgnoresLockedFields(f1: ProfileForm, f2: ProfileForm, current: User)
    requires f1.others == f2.others
    ensures DisableProfileFieldsPost(f1, current) == DisableProfileFieldsPost(f2, current)
  {
  }

  /** For a user as the provisioner last wrote them, the filter writes back exactly the
      values of that record: the lock and the next login's resync agree. */
  lemma LockAgreesWithProvisionedRecord(submitted: ProfileForm, a: Assertion, pass: string, id: nat)
    ensures var record := UserRecord(a, pass);
      var r := DisableProfileFieldsPost(submitted, User(id, record));
      && r.firstName == a.firstName && r.lastName == a.lastName
      && r.nickname == record.nickname && r.email == a.email
  {
  }

  /** For a user whose stored nickname differs from the nicename (an account made
      outside the provisioner), the filter changes the nickname instead of keeping it. */
  lemma LockRewritesNickname(submitted: ProfileForm, current: User)
    requires submitted.nickname == current.data.nickname
    requires current.data.nickname != current.data.nicename
    ensures DisableProfileFieldsPost(submitted, current).nickname == current.data.nicename
    ensures DisableProfileFieldsPost(submitted, current).nickname != current.data.nickname
  {
  }
}
