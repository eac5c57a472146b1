/** The mailbox behind the Gmail API: its label table and the labels on its messages. */
module GmailClient {
  import opened Common
  import opened Classifier
  import opened Pipeline

  /** What becomes of a call: done, refused with an error, or done with the answer lost in transport. */
  datatype Call = Fine | Refused(error: GmailError) | Unheard

  const NOT_FOUND := ApiError(404)

  /** The error a call comes back with. */
  function ErrorOf(call: Call): Option<GmailError> {
    match call
    case Fine => None
    case Refused(error) => Some(error)
    case Unheard => Some(OtherError)
  }

  class Client {
    const world: World
    var labels: seq<Label>
    var contents: map<string, Message>
    var mail: map<string, set<LabelId>>
    ghost var arrived: map<string, set<LabelId>>
    ghost var edits: set<Edit>

    ghost function View(): Gmail
      reads this
    {
      Gmail(labels, contents, mail, arrived, edits)
    }

    /** List the labels; take the first whose name is equal under folding, or else create one. `newId` is
        the id Gmail gives to a new label. */
    method EnsureLabel(name: string, newId: LabelId, list: Call, create: Call) returns (r: Result<LabelId, GmailError>)
      modifies this`labels
      ensures var found := FindLabel(world, old(labels), name);
        if list == Unheard then labels == old(labels) && r == Err(OtherError)
        else if list.Refused? then labels == old(labels) && r == Err(list.error)
        else if found.Some? then labels == old(labels) && r == Ok(found.value)
        else
          && labels == (if create.Refused? then old(labels) else old(labels) + [Label(newId, name)])
          && r == match create {
               case Fine => Ok(newId)
               case Refused(error) => Err(error)
               case Unheard => Err(OtherError)
             }
    {
      match list {
        case Unheard => return Err(OtherError);
        case Refused(error) => return Err(error);
        case Fine =>
      }
      for i := 0 to |labels|
        invariant labels == old(labels)
        invariant FindLabel(world, labels, name) == FindLabel(world, labels[i..], name)
      {
        if world.fold(labels[i].name) == world.fold(name) { return Ok(labels[i].id); }
      }
      match create {
        case Refused(error) => return Err(error);
        case Unheard => labels := labels + [Label(newId, name)]; return Err(OtherError);
        case Fine => labels := labels + [Label(newId, name)]; return Ok(newId);
      }
    }

    /** Add the label, remove INBOX, and UNREAD when asked; a message that is not there is an error.
        The ghost event is put on record with the edit. */
    method ApplyLabelToMessage(id: string, x: LabelId, markRead: bool, call: Call, ghost event: LabelEvent)
      returns (error: Option<GmailError>)
      modifies this`mail, this`edits
      ensures var done := !call.Refused? && id in old(mail);
        && mail == (if done then old(mail)[id := Modified(old(mail)[id], x, markRead)] else old(mail))
        && edits == (if done then old(edits) + {Edit(event, x)} else old(edits))
      ensures error ==
        if call.Refused? then Some(call.error)
        else if id !in old(mail) then Some(ApiError(404))
        else if call == Unheard then Some(OtherError) else None
    {
      var remove := {Inbox};
      if markRead { remove := remove + {Unread}; }
      match call {
        case Refused(e) => return Some(e);
        case _ =>
      }
      if id !in mail { return Some(NOT_FOUND); }
      assert remove == {Inbox} + if markRead then {Unread} else {};
      mail := mail[id := (mail[id] - remove) + {x}];
      edits := edits + {Edit(event, x)};
      error := if call == Unheard then Some(OtherError) else None;
    }
  }
}
