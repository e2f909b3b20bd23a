/** User rows, shared by the role store, the account protocol and the superuser bootstrap. */
module Users {
  import opened Prelude

  datatype ResetMethod = Otp | MagicLink

  datatype ResetRecord = ResetRecord(method_: ResetMethod, token: string, expires: int)

  /** A stored password: a hash of its text, or a legacy value that is no recognised hash. */
  datatype Password = Hashed(text: string) | Legacy(text: string)

  /** A metadata value.  Whole is one that int() accepts, Text one that it rejects. */
  datatype MetaValue = Text(text: string) | Whole(number: int) | Reset(record: ResetRecord)

  type Metadata = map<string, MetaValue>

  datatype User = User(email: string, password: Password, superuser: bool, life: Life, meta: Metadata)

  const STATUS_KEY := "status"
  const VERSION_KEY := "refresh_token_version"
  const RESET_KEY := "password_reset"

  const ACTIVE := "Active"
  const AWAITING_VERIFICATION := "Awaiting Verification"

  function Status(u: User): Option<string> {
    if STATUS_KEY in u.meta && u.meta[STATUS_KEY].Text? then Some(u.meta[STATUS_KEY].text) else None
  }

  /** The stored token version; anything int() rejects counts as 0. */
  function Version(u: User): int {
    if VERSION_KEY in u.meta && u.meta[VERSION_KEY].Whole? then u.meta[VERSION_KEY].number else 0
  }

  function PendingReset(u: User): Option<ResetRecord> {
    if RESET_KEY in u.meta && u.meta[RESET_KEY].Reset? then Some(u.meta[RESET_KEY].record) else None
  }

  ghost predicate UniqueEmails(users: map<Id, User>) {
    forall a, b | a in users && b in users && users[a].email == users[b].email :: a == b
  }
}
