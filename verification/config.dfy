/** The single configuration document: per-tier limits per service key, and
 *  the service catalogue. A limit of -1 means unlimited. */
module ConfigData {
  import opened Wrappers
  import opened JsObject

  datatype QuotaLimit = QuotaLimit(limit: int, description: Option<string>)

  datatype Service = Service(name: string, description: string, active: bool)

  datatype Config = Config(tierLimits: Obj<Obj<QuotaLimit>>, services: Obj<Service>)

  const Unlimited: int := -1

  /** `config.services[key]?.active`: a missing service counts as inactive. */
  predicate ServiceActive(config: Config, key: string)
  {
    match Get(config.services, key)
    case None => false
    case Some(s) => s.active
  }

  /** What is left of a limit after `used`: -1 for unlimited, otherwise
   *  `Math.max(0, limit - used)`. */
  function Remaining(limit: int, used: int): (r: int)
    ensures limit == Unlimited ==> r == -1
    ensures limit != Unlimited ==> r >= 0 && r >= limit - used
    ensures limit != Unlimited && r > 0 ==> used + r == limit
  {
    if limit == Unlimited then -1 else if limit - used > 0 then limit - used else 0
  }
}
