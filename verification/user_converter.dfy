/** `convertUserToDto` of `user.converter.ts`: the response view of a user. */
module UserConverter {
  import opened Results
  import opened UserSchema

  /** UserResponseDto: every user field except the password hash, plus the id. */
  datatype UserResponse = UserResponse(
    userId: Id,
    firstName: string,
    lastName: string,
    email: string,
    role: Role,
    createdAt: int,
    subscription: string)

  /** The response DTO of the user stored under `id`. Together with the hash it
      rebuilds the stored user exactly, so every other field is copied unchanged;
      `userId` is the document id. */
  function ConvertUserToDto(id: Id, u: User): (dto: UserResponse)
    ensures dto.userId == id
    ensures User(dto.firstName, dto.lastName, dto.email, u.password, dto.role,
                 dto.subscription, dto.createdAt) == u
  {
    UserResponse(id, u.firstName, u.lastName, u.email, u.role, u.createdAt, u.subscription)
  }

  /** The DTO does not depend on the password hash: two users differing only in
      their hash have the same response. */
  lemma DtoHidesPassword(id: Id, u: User, otherHash: string)
    ensures ConvertUserToDto(id, u) == ConvertUserToDto(id, u.(password := otherHash))
  {
  }
}
