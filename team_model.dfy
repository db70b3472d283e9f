/**
 * The Team and User documents (src/models/Team.ts, src/models/User.ts) as
 * the registration route writes them. Password hashes are not modelled.
 */
module TeamModel {

  datatype Role = TeamLead | TeamMember | Mentor | Admin

  /** The role names stored in `User.role` and carried in the JWT. */
  function RoleName(r: Role): string {
    match r
    case TeamLead => "team_lead"
    case TeamMember => "team_member"
    case Mentor => "mentor"
    case Admin => "admin"
  }

  /** A team member as embedded in the Team document. */
  datatype Member = Member(name: string, email: string, rollNo: string)

  datatype Team = Team(teamCode: string, teamName: string, leader: Member, members: seq<Member>)

  datatype User = User(name: string, email: string, rollNo: string, role: Role, teamCode: string)
}
