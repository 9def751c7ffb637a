/** The development switch that makes reads fail as if rate-limited. */
module TestMode {

  /** The module-level `_simulate_rate_limit` flag. */
  class RateLimitSimulation {
    var enabled: bool

    /** The flag starts off. */
    constructor ()
      ensures !enabled
    {
      enabled := false;
    }

    /**
     * `set_simulate_rate_limit`: the flag becomes `on` and the new value is
     * answered. The new state depends on `on` only, so setting a value twice is
     * the same as setting it once.
     */
    method Set(on: bool) returns (r: bool)
      modifies this
      ensures enabled == on && r == on
    {
      enabled := on;
      r := enabled;
    }

    /** `get_simulate_rate_limit`: the value most recently set. */
    method Get() returns (r: bool)
      ensures r == enabled
    {
      r := enabled;
    }
  }
}
