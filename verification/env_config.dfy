/**
  The process configuration the request wrapper reads. Reading the process
  environment and validating `BASE_URL` as a URL are not modelled; the
  configured API key is passed to the header computation as an explicit
  value.
 */
module EnvConfig {

  /** Base URL used when `BASE_URL` is not set. */
  const DefaultBaseUrl: string := "https://reqres.in"
}
