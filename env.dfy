/** The configuration the helpers read through `Cypress.env`. */
module CypressEnv {

  /**
   * The parts of `new URL(url)` that the route-matcher translation reads.
   * Parsing itself (and its rejection of a malformed URL) is outside the model.
   */
  datatype UrlParts = UrlParts(protocol: string, hostname: string, pathname: string)

  /** Environment values; the three base URLs are given already parsed. */
  datatype Env = Env(
    apiUrl: UrlParts,
    onboardingApiUrl: UrlParts,
    unleashUrl: UrlParts,
    userEmail: string,
    userPassword: string,
    auth0ClientId: string,
    auth0Audience: string)
}
