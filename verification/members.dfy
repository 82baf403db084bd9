/**
 * The member directory both services consult, and the error codes they
 * raise. The directory itself belongs to another subsystem; here it is
 * only a finite map from member ids to members.
 */
module Members {
  import opened Wrappers

  type MemberId = int

  /** A member, known to the services only by its identity. */
  datatype Member = Member(id: MemberId)

  type Directory = map<MemberId, Member>

  /** Every member is stored under its own id. */
  ghost predicate Consistent(directory: Directory) {
    forall k :: k in directory ==> directory[k].id == k
  }

  /** The failures of the two services. */
  datatype Error =
    | MemberNotFound   // `ErrorCode.MEMBER_NOT_FOUND`
    | ImageNotFound    // `ErrorCode.IMAGE_NOT_FOUND`
    | DateTimeError    // a `DateTimeException` from `java.time`

  /** `memberRepository.findById(id)`. */
  function FindById(directory: Directory, id: MemberId): (r: Option<Member>)
    ensures r.Some? <==> id in directory
    ensures r.Some? ==> r.value == directory[id]
    ensures r.Some? && Consistent(directory) ==> r.value.id == id
  {
    if id in directory then Some(directory[id]) else None
  }
}
