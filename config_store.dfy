/**
 * The in-memory chaos configuration store: one mutable slot, seeded at
 * construction, read by `GetAsync` and replaced wholesale by `SaveAsync`.
 */
module ConfigStore {
  import opened Models

  class InMemoryChaosConfigStore {
    /** `_current`: the configuration in force. */
    var current: ChaosConfig

    /** Seeded from the configuration bound at start-up. */
    constructor (seed: ChaosConfig)
      ensures current == seed
    {
      current := seed;
    }

    /** Reads the slot; nothing is written. */
    method GetAsync() returns (config: ChaosConfig)
      ensures config == current
    {
      config := current;
    }

    /** Replaces the slot with `config` as given: no validation, no merge. */
    method SaveAsync(config: ChaosConfig)
      modifies this
      ensures current == config
    {
      current := config;
    }
  }

  /** A store built from `seed` and read at once hands back `seed`. */
  method FreshStoreReturnsSeed(seed: ChaosConfig) returns (store: InMemoryChaosConfigStore, got: ChaosConfig)
    ensures fresh(store) && store.current == seed
    ensures got == seed
  {
    store := new InMemoryChaosConfigStore(seed);
    got := store.GetAsync();
  }

  /**
   * Of two successive saves the later one is what a read returns, and a
   * second read returns the same as the first.
   */
  method SaveTwiceKeepsLast(store: InMemoryChaosConfigStore, first: ChaosConfig, second: ChaosConfig)
    returns (got: ChaosConfig, again: ChaosConfig)
    modifies store
    ensures got == second && again == second
    ensures store.current == second
  {
    store.SaveAsync(first);
    store.SaveAsync(second);
    got := store.GetAsync();
    again := store.GetAsync();
  }

  /**
   * The store keeps whatever it is given, a configuration that breaks every
   * constraint included: validation is the caller's business.
   */
  method SaveKeepsInvalidConfig(store: InMemoryChaosConfigStore) returns (got: ChaosConfig)
    modifies store
    ensures !got.Valid() && got.failureRatePercent == 150
    ensures store.current == got
  {
    var invalid := DefaultChaosConfig().(failureRatePercent := 150);
    store.SaveAsync(invalid);
    got := store.GetAsync();
  }
}
