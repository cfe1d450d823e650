/**
 * The permission map of the `/home` route closure. It is a separate table
 * from the one in `DocumentController::index`: levels 1 and 2 are also given
 * `can_approve` here.
 */
module WebRoutes {
  import opened Model
  import DocumentController

  /** The capability list the `/home` route sends for a permission level. */
  function HomeCapabilities(level: int): (caps: seq<Capability>)
    ensures Distinct(caps)
    ensures CanSee in caps <==> 0 <= level <= 2
    ensures CanCreate in caps <==> level == 1 || level == 2
    ensures CanApprove in caps <==> level == 1 || level == 2
    ensures CanEdit in caps <==> level == 2
    ensures CanDelete in caps <==> level == 2
    ensures caps == [] <==> level !in {0, 1, 2}
  {
    match level
    case 2 => [CanSee, CanCreate, CanEdit, CanDelete, CanApprove]
    case 1 => [CanSee, CanCreate, CanApprove]
    case 0 => [CanSee]
    case _ => []
  }

  /** The exact lists, in the order they are sent. */
  lemma HomeCapabilitiesTable(level: int)
    ensures level == 2 ==> HomeCapabilities(level) == [CanSee, CanCreate, CanEdit, CanDelete, CanApprove]
    ensures level == 1 ==> HomeCapabilities(level) == [CanSee, CanCreate, CanApprove]
    ensures level == 0 ==> HomeCapabilities(level) == [CanSee]
    ensures level !in {0, 1, 2} ==> HomeCapabilities(level) == []
    ensures level == 2 ==> Names(HomeCapabilities(level)) == ["can_see", "can_create", "can_edit", "can_delete", "can_approve"]
    ensures level == 1 ==> Names(HomeCapabilities(level)) == ["can_see", "can_create", "can_approve"]
    ensures level == 0 ==> Names(HomeCapabilities(level)) == ["can_see"]
  {
  }

  /** Each level has every capability of the level below it. */
  lemma HomeCapabilitiesNested()
    ensures forall c :: c in HomeCapabilities(0) ==> c in HomeCapabilities(1)
    ensures forall c :: c in HomeCapabilities(1) ==> c in HomeCapabilities(2)
  {
  }

  /**
   * At every level the `/home` list is the `index` list with `can_approve`
   * appended at levels 1 and 2, and the same list at every other level.
   */
  lemma HomeExtendsIndex(level: int)
    ensures HomeCapabilities(level) ==
      DocumentController.Capabilities(level) + (if level == 1 || level == 2 then [CanApprove] else [])
    ensures level != 1 && level != 2 ==> HomeCapabilities(level) == DocumentController.Capabilities(level)
  {
  }

  /** The two maps agree on every capability except `can_approve`. */
  lemma HomeAgreesWithIndexExceptApprove(level: int, c: Capability)
    requires c != CanApprove
    ensures c in HomeCapabilities(level) <==> c in DocumentController.Capabilities(level)
  {
  }
}
