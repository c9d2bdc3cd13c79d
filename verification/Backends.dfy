/** Backend instances.  An instance is an object: two instances of one id are different. */
module Backends {

  datatype Config = Config(
    id: string, url: string, engine: string, weight: real, maxConcurrency: int,
    metricsPath: string, healthPath: string, bootstrapPort: int, labels: map<string, string>)

  /** A static weight of zero or less counts as 1. */
  function NormalizeWeight(w: real): real { if w <= 0.0 then 1.0 else w }

  class Backend {
    const cfg: Config

    constructor (cfg: Config)
      ensures this.cfg == cfg.(weight := NormalizeWeight(cfg.weight))
      ensures this.cfg.weight == if cfg.weight <= 0.0 then 1.0 else cfg.weight
    {
      this.cfg := cfg.(weight := NormalizeWeight(cfg.weight));
    }
  }

  /** Within `pool` an id stands for one instance. */
  ghost predicate IdsIdentify(pool: seq<Backend>) {
    forall i, j :: 0 <= i < |pool| && 0 <= j < |pool| && pool[i].cfg.id == pool[j].cfg.id ==> pool[i] == pool[j]
  }
}
