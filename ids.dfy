/** Identifiers shared by the two services: the course service's roster entries refer to users
    by the same numeric id the user service stores them under. */
module Ids {
  type UserId = int
}
