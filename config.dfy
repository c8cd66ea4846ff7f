/** The scraper's configuration constants (Get-Data.py lines 7-13). */
module Config {
  const BaseUrl: string := "https://api.jolpi.ca/ergast/f1"
  /** Records asked for per page. */
  const BatchSize: nat := 1000
  /** Attempts per request by default. */
  const Retries: nat := 5
  /** Seconds of the first back-off and of the pause after each round. */
  const Delay: nat := 2
}
