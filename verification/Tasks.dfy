/** What the event loop hands to the database workers. */
module Tasks {
  import opened Codec

  /** A command with the connection it came from and the user that connection had when it came. */
  datatype Task = Task(cmd: Command, fd: int, userId: string)

  predicate IsDbCommand(c: Command) {
    c.Login? || c.Register? || c.Say? || c.Nick? || c.FriendRequest? || c.FriendAccept? || c.FriendReject?
    || c.FriendRemove? || c.ListFriend? || c.ListFriendRequest? || c.CreateRoom? || c.DeleteRoom? || c.InviteRoom?
    || c.LeaveRoom? || c.ListRoom? || c.History?
  }

  /** Every command but a response is for the database. */
  lemma DbCommandIff(c: Command)
    ensures IsDbCommand(c) <==> !c.Response?
  {}
}
