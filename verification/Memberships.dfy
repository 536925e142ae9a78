/** The two enumerations of the memberships table that several components read. */
module Memberships {

  datatype Role = OWNER | ADMIN | MEMBER | READ_ONLY

  datatype Status = ACTIVE | INVITED | SUSPENDED
}
