/**
 * The comment data shared by the backend and the front end: the stored row,
 * the record sent to and shown by the browser, and the site owner's pinned
 * comment that both tiers guarantee.
 */
module Comments {
  import opened Common

  /** A stored comment row; `createdAt` in milliseconds since the epoch. */
  datatype Row = Row(id: string, name: string, message: string, profilePhoto: Option<string>, isPinned: bool, createdAt: int)

  /** A comment as the API returns it and the page renders it. */
  datatype Record = Record(id: string, name: string, message: string, timestamp: string, isPinned: bool, profilePhoto: Option<string>)

  const OwnerName: string := "Thanh Tai"
  const OwnerMessage: string := "Thanks for visiting! Contact me if you need anything"
  const OwnerPhoto: string := "/images/profile/5d20d308b815374b6e04.jpg"

  /** The owner's pinned comment: pinned, and written under the owner's exact name. */
  predicate IsOwnerPinned(isPinned: bool, name: string) {
    isPinned && name == OwnerName
  }
}
