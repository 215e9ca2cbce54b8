/** The user schema: account fields, role, and the public profile of a mentor or mentee. */
module UserModel {
  import opened Options
  import BookingModel

  type Id = BookingModel.Id

  datatype Role = Mentee | Mentor
  datatype AuthProvider = Google | GitHub | Credentials

  datatype SocialLinks = SocialLinks(linkedIn: string, twitter: string, github: string)
  datatype TimeSlot = TimeSlot(start: string, end: string)
  datatype DayAvailability = DayAvailability(day: string, slots: seq<TimeSlot>)

  datatype User = User(
    id: Id,
    name: string,
    email: string,
    password: Option<string>,
    authProvider: AuthProvider,
    providerId: Option<string>,
    role: Role,
    avatar: string,
    bio: string,
    title: string,
    socialLinks: SocialLinks,
    learningGoals: seq<string>,
    expertise: seq<string>,
    availability: seq<DayAvailability>)

  /** The schema's `required` checks: a name and an email, neither empty. */
  predicate Valid(u: User) {
    u.name != "" && u.email != ""
  }

  const EmptyLinks: SocialLinks := SocialLinks("", "", "")

  /**
   * A new account as the schema fills it in: role `mentee` and provider
   * `credentials` unless given, empty avatar, bio, title and links, empty lists.
   */
  function NewUser(id: Id, name: string, email: string, password: Option<string>,
                   provider: Option<AuthProvider>, role: Option<Role>): (u: User)
    requires name != "" && email != ""
    ensures Valid(u)
    ensures u.role == (if role.Some? then role.value else Mentee)
    ensures u.authProvider == (if provider.Some? then provider.value else Credentials)
    ensures u.avatar == "" && u.bio == "" && u.title == "" && u.socialLinks == EmptyLinks
    ensures u.learningGoals == [] && u.expertise == [] && u.availability == []
  {
    User(id, name, email, password,
         if provider.Some? then provider.value else Credentials, None,
         if role.Some? then role.value else Mentee,
         "", "", "", EmptyLinks, [], [], [])
  }
}
