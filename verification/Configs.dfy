/** PoolConfig and its normalisation. */
module Configs {
  import opened Wrappers

  datatype Config = Config(min: int, max: int, idleTimeout: int) {
    /** What the rest of the pool relies on. */
    predicate Normal() {
      0 <= min <= max && 1 <= max
    }

    /** A reaper goroutine exists exactly for a positive timeout. */
    predicate Reaps() {
      idleTimeout > 0
    }
  }

  datatype ConfigError = NegativeMin | MaxBelowMin

  /** PoolConfig.normalize; works on its own copy, as the by-value receiver does. */
  method Normalize(cfg: Config) returns (r: Result<Config, ConfigError>)
    ensures r.Success? ==> r.value.Normal() && r.value.min == cfg.min && r.value.idleTimeout == cfg.idleTimeout
    ensures r.Success? ==> r.value.max == cfg.max || (cfg.max < 1 && r.value.max == 1)
    ensures r.Success? <==> 0 <= cfg.min && (cfg.min <= cfg.max || cfg.min <= 1)
    ensures r.Failure? ==> (r.error == NegativeMin <==> cfg.min < 0)
    ensures cfg.Normal() ==> r == Success(cfg)
  {
    var c := cfg;
    if c.min < 0 {
      return Failure(NegativeMin);
    }
    if c.max < 1 {
      c := c.(max := 1);
    }
    if c.max < c.min {
      return Failure(MaxBelowMin);
    }
    return Success(c);
  }
}
