/** The club's account directory, as the trip form and the logbook store hold it. */
module Accounts {
  import opened Wrappers

  datatype AccountProfile = AccountProfile(
    id: string, name: string, email: string, defaultRole: string, birthYear: Option<int>)

  const ACCOUNT_DIRECTORY: seq<AccountProfile> := [
    AccountProfile("account-001", "Nils Brenner", "nils@masys.app", "Co-Skipper", Some(1992)),
    AccountProfile("account-002", "Mara Lenz", "mara.lenz@bsv.de", "Trainer", Some(1999)),
    AccountProfile("account-003", "Kim Albrecht", "kim.albrecht@masys.app", "Crew", Some(2008)),
    AccountProfile("account-004", "Luis Kramer", "luis.kramer@masys.app", "Crew", Some(2007)),
    AccountProfile("account-005", "Sabine Köster", "sabine.koester@bsv.de", "Trainer", Some(1988))
  ]

  /** Account ids are unique, so a lookup by id is unambiguous. */
  lemma DirectoryIdsDistinct()
    ensures forall i, j :: 0 <= i < j < |ACCOUNT_DIRECTORY| ==> ACCOUNT_DIRECTORY[i].id != ACCOUNT_DIRECTORY[j].id
  {
  }
}
