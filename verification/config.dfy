/** Default settings the system reads from its environment (config.py).
    Only the defaults are modelled; parsing environment variables is not. */
module Config {

  /** Shortest and longest simulated job duration, in seconds. */
  const MinDelay: real := 10.0
  const MaxDelay: real := 30.0

  /** Client polling settings: first wait, cap on the wait, and growth factor. */
  const InitialInterval: real := 1.0
  const MaxInterval: real := 30.0
  const BackoffFactor: real := 1.5
}
