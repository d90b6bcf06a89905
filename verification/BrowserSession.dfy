/** The lifecycle of a browser session row, which the lease and the action tables share. */
module BrowserSession {
  datatype Lifecycle =
    | Creating | Ready | Active | ChallengeRequired | Paused | Recovering | Closing | Closed | Failed | Expired
}
