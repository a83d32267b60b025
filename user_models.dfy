/** The user records (src/models/user.ts). */
module UserModels {

  /** A user as `findByUsername` returns it, password hash included. */
  datatype UserEntity = UserEntity(id: nat, firstName: string, lastName: string, username: string, passwordHash: string)

  /** A user as `findOneUser` returns it: names only, never the hash. */
  datatype UserInfo = UserInfo(firstName: string, lastName: string, username: string)

  /** The body of a login request. */
  datatype UserCredentials = UserCredentials(username: string, password: string)

  /** The body of a registration request. It is an object: the service
      overwrites its `password` with the hash before handing it on. */
  class UserPayload {
    var firstName: string
    var lastName: string
    var username: string
    var password: string

    constructor (firstName: string, lastName: string, username: string, password: string)
      ensures this.firstName == firstName && this.lastName == lastName
      ensures this.username == username && this.password == password
    {
      this.firstName := firstName;
      this.lastName := lastName;
      this.username := username;
      this.password := password;
    }
  }
}
