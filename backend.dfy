/**
 * The REST backend as the front end sees it: the member record it returns,
 * the requests the pages send, and the two outcomes of every call.
 */
module Backend {
  import opened Wrappers

  type MemberId = int

  /** A member record as returned by the list and login endpoints. */
  datatype Member = Member(
    id: MemberId,
    name: string,
    mobileNumber: string,
    location: string,
    trainerName: string,
    joiningDate: string,
    subscriptionStartDate: string,
    subscriptionEndDate: string,
    weight: Option<string>,
    isPaid: bool)

  /** A JSON value in a record sent to the create endpoint. */
  datatype Field = Text(text: string) | Flag(flag: bool)

  type Record = map<string, Field>

  /** One call to the backend, with what it carries. */
  datatype Request =
    | AdminAuthenticate(username: string, password: string)  // POST admin-login/
    | ListMembers                                            // GET admin/viewdetails/
    | CreateMember(record: Record)                           // POST admin/create-user/
    | UpdateSubscription(id: MemberId, endDate: string)      // PUT admin/update-user/{id}/
    | DeleteMember(id: MemberId)                             // DELETE admin/delete-user/{id}/
    | MemberLogin(mobileNumber: string)                      // POST users/login/
    | UpdateWeight(id: MemberId, weight: string)             // PATCH users/update-weight/{id}/

  /** What an awaited call resolves to: a 2xx response with its data, or a rejection. */
  datatype Response<+T> = Ok(data: T) | Failed
}
