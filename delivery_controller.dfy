/**
 * The decision layer of `DeliveryController.getUserDeliveryComms`: validate
 * the id, call the service, turn a falsy service result into not-found and
 * pass anything else through.
 *
 * The service is a parameter, so the model says what the controller does for
 * every behaviour of it; `Wired` plugs in the service model of
 * `DeliveryService`.
 */
module DeliveryController {
  import opened UserId
  import opened DeliveryService

  /**
   * What one call of `generateUserDeliveryComms` can do, as seen by the
   * controller: throw, return a falsy value (`undefined`, `null`, ...), or
   * return a notification object.
   */
  datatype ServiceOutcome = Threw(failure: Failure) | ReturnedFalsy | Returned(comms: Comms)

  /** `getUserDeliveryComms(userId)` over a service `service`. */
  function GetUserDeliveryComms(userId: string, service: string -> ServiceOutcome): (r: Result<Comms>)
    ensures !IsValidUserId(userId) ==> r == Fail(BadRequest)
    ensures IsValidUserId(userId) && service(userId) == ReturnedFalsy ==> r == Fail(NotFound)
    ensures IsValidUserId(userId) && service(userId).Returned? ==> r == Ok(service(userId).comms)
    ensures IsValidUserId(userId) && service(userId).Threw? ==> r == Fail(service(userId).failure)
  {
    if !IsValidUserId(userId) then Fail(BadRequest)
    else
      match service(userId)
      case Threw(f) => Fail(f)
      case ReturnedFalsy => Fail(NotFound)
      case Returned(c) => Ok(c)
  }

  /** A malformed id is rejected whatever the service would do: it is not called. */
  lemma InvalidIdSkipsService(userId: string, s1: string -> ServiceOutcome, s2: string -> ServiceOutcome)
    requires !IsValidUserId(userId)
    ensures GetUserDeliveryComms(userId, s1) == GetUserDeliveryComms(userId, s2) == Fail(BadRequest)
  {
  }

  /**
   * For a well-formed id only the service's answer for that same id matters:
   * the id reaches the service unchanged.
   */
  lemma ValidIdPassedUnchanged(userId: string, s1: string -> ServiceOutcome, s2: string -> ServiceOutcome)
    requires IsValidUserId(userId) && s1(userId) == s2(userId)
    ensures GetUserDeliveryComms(userId, s1) == GetUserDeliveryComms(userId, s2)
  {
  }

  /** The service model as the controller sees it: a notification object is always truthy. */
  function Wired(data: seq<User>): (w: string -> ServiceOutcome)
    ensures forall userId :: w(userId) != ReturnedFalsy
    ensures forall userId :: w(userId).Threw? <==> GetUserDataById(data, userId).Fail?
    ensures forall userId :: w(userId).Threw? ==> w(userId).failure == GetUserDataById(data, userId).failure
  {
    userId =>
      match GenerateUserDeliveryComms(data, userId)
      case Ok(c) => Returned(c)
      case Fail(f) => Threw(f)
  }

  /**
   * Over the service model the controller answers exactly as the service
   * does: its own id check agrees with the service's, so the falsy branch is
   * never taken and not-found comes from the service's exception.
   */
  lemma ControllerOverService(data: seq<User>, userId: string)
    ensures GetUserDeliveryComms(userId, Wired(data)) == GenerateUserDeliveryComms(data, userId)
    ensures IsValidUserId(userId) ==> Wired(data)(userId) != ReturnedFalsy
    ensures
      var r := GetUserDeliveryComms(userId, Wired(data));
      && (r == Fail(BadRequest) <==> !IsValidUserId(userId))
      && (r == Fail(NotFound) <==> IsValidUserId(userId) && forall u | u in data :: u.id != userId)
  {
  }
}
