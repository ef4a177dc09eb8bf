/** The last guard before a Template's external object is deleted. */
module ExternalDelete {
  import opened Basics
  import opened ExternalIdentity

  datatype Deletion = Refused | AlreadyGone | Issued

  /** `Delete` of a Template: the DELETE is issued exactly for a bound ID that is still there, with
      no Endpoint in the cluster referring to the Template by name, and none in the account
      running it, or running one that cannot be told; `None` is a failed list. */
  method DeleteTemplate(
      name: string, id: string, statusId: string,
      managed: Option<seq<Option<string>>>, external: Option<seq<string>>, current: Read)
    returns (r: Deletion)
    ensures r == Issued ==> current.Got?
    ensures r == AlreadyGone ==> current.Gone?
    ensures r != Refused <==>
              && ValidId(id) && statusId == id && current != Unreadable
              && managed.Some? && (forall ref <- managed.value :: ref != Some(name))
              && external.Some? && (forall template <- external.value :: ValidId(template) && template != id)
  {
    if !ValidId(id) || statusId != id { return Refused; }
    if managed.None? { return Refused; }
    for i := 0 to |managed.value|
      invariant forall k :: 0 <= k < i ==> managed.value[k] != Some(name)
    {
      assert managed.value[i] in managed.value;
      if managed.value[i] == Some(name) { return Refused; }
    }
    if external.None? { return Refused; }
    for i := 0 to |external.value|
      invariant forall k :: 0 <= k < i ==> ValidId(external.value[k]) && external.value[k] != id
    {
      if !ValidId(external.value[i]) { return Refused; }
      if external.value[i] == id { return Refused; }
    }
    match current {
      case Gone => return AlreadyGone;
      case Unreadable => return Refused;
      case Got(_) => return Issued;
    }
  }
}
