// The database a worker owns, by the name proxyshop_support/postgres.py gives it and scripts/db_reclaim.py reads.
module WorkerNames {
  import opened Decimals

  const PREFIX: string := "proxyshop_w"

  function DatabaseName(worker: int): string {
    PREFIX + IntText(worker)
  }
}
