/** The project handlers: create, list, fetch, join and delete over an
    in-memory project table, with the owner's contribution counter. */
module ProjectController {
  import opened Common
  import opened Users

  datatype Project = Project(
    title: string,
    description: string,
    skillsRequired: seq<string>,
    createdBy: ObjectId,
    members: seq<ObjectId>)

  predicate NoDuplicates(s: seq<ObjectId>) {
    forall i, j :: 0 <= i < j < |s| ==> s[i] != s[j]
  }

  /** The roster invariant: the owner is a member and nobody is listed twice. */
  predicate WellFormed(p: Project) {
    p.createdBy in p.members && NoDuplicates(p.members)
  }

  /** The JSON bodies the handlers send. */
  datatype Reply =
    | ProjectJson(project: Project)
    | ProjectsJson(projects: map<ObjectId, Project>)
    | MessageJson(message: string)
    | JoinedJson(message: string, project: Project)

  const NotFoundMessage := "Project not found"
  const NotOwnerMessage := "Not authorized to delete this project"
  const AlreadyMemberMessage := "Already a member"
  const JoinedMessage := "Joined project successfully"
  const DeletedMessage := "Project deleted successfully"

  /** Appending a caller who is not yet a member keeps the roster invariant
      and grows the roster by exactly one. */
  lemma JoinKeepsWellFormed(p: Project, caller: ObjectId)
    requires WellFormed(p) && caller !in p.members
    ensures WellFormed(p.(members := p.members + [caller]))
    ensures |p.(members := p.members + [caller]).members| == |p.members| + 1
  {
  }

  class ProjectStore {
    var projects: map<ObjectId, Project>
    const users: UserTable

    ghost predicate Valid()
      reads this
    {
      forall id :: id in projects ==> WellFormed(projects[id])
    }

    constructor (users: UserTable)
      ensures Valid() && projects == map[] && this.users == users
    {
      projects := map[];
      this.users := users;
    }

    /** POST /projects: the caller owns the new project and is its only
        member; the caller's counter rises by one. `newId` is the id the
        database assigns. */
    method CreateProject(caller: ObjectId, title: string, description: string,
                         skillsRequired: seq<string>, newId: ObjectId)
      returns (status: Status, reply: Reply)
      requires Valid() && newId !in projects
      modifies this, users
      ensures Valid()
      ensures status == Created
      ensures projects == old(projects)[newId := Project(title, description, skillsRequired, caller, [caller])]
      ensures reply == ProjectJson(projects[newId])
      ensures users.contributions == Bumped(old(users.contributions), caller, 1)
    {
      var project := Project(title, description, skillsRequired, caller, [caller]);
      projects := projects[newId := project];
      users.Increment(caller, 1);
      status, reply := Created, ProjectJson(project);
    }

    /** GET /projects: every stored project, each satisfying the roster
        invariant. */
    method GetProjects() returns (status: Status, reply: Reply)
      requires Valid()
      ensures status == Ok && reply == ProjectsJson(projects)
      ensures forall id :: id in reply.projects ==> WellFormed(reply.projects[id])
    {
      status, reply := Ok, ProjectsJson(projects);
    }

    /** GET /projects/:id: the stored project, or 404 for an unknown id. */
    method GetProjectById(id: ObjectId) returns (status: Status, reply: Reply)
      ensures id !in projects ==> status == NotFound && reply == MessageJson(NotFoundMessage)
      ensures id in projects ==> status == Ok && reply == ProjectJson(projects[id])
    {
      if id !in projects {
        return NotFound, MessageJson(NotFoundMessage);
      }
      status, reply := Ok, ProjectJson(projects[id]);
    }

    /** POST /projects/:id/join: 404 for an unknown id, 400 for a caller
        already on the roster, otherwise the caller is appended once.
        Counters are never touched. */
    method JoinProject(caller: ObjectId, id: ObjectId) returns (status: Status, reply: Reply)
      requires Valid()
      modifies this
      ensures Valid()
      ensures id !in old(projects) ==>
        status == NotFound && reply == MessageJson(NotFoundMessage) && projects == old(projects)
      ensures id in old(projects) && caller in old(projects)[id].members ==>
        status == BadRequest && reply == MessageJson(AlreadyMemberMessage) && projects == old(projects)
      ensures id in old(projects) && caller !in old(projects)[id].members ==>
        && status == Ok
        && projects == old(projects)[id := old(projects)[id].(members := old(projects)[id].members + [caller])]
        && |projects[id].members| == |old(projects)[id].members| + 1
        && reply == JoinedJson(JoinedMessage, projects[id])
    {
      if id !in projects {
        return NotFound, MessageJson(NotFoundMessage);
      }
      var project := projects[id];
      if caller in project.members {
        return BadRequest, MessageJson(AlreadyMemberMessage);
      }
      JoinKeepsWellFormed(project, caller);
      project := project.(members := project.members + [caller]);
      projects := projects[id := project];
      status, reply := Ok, JoinedJson(JoinedMessage, project);
    }

    /** DELETE /projects/:id: 404 for an unknown id, 403 unless the caller
        owns the project; otherwise exactly that record goes and the
        caller's counter drops by one. */
    method DeleteProject(caller: ObjectId, id: ObjectId) returns (status: Status, reply: Reply)
      requires Valid()
      modifies this, users
      ensures Valid()
      ensures id !in old(projects) ==>
        && status == NotFound && reply == MessageJson(NotFoundMessage)
        && projects == old(projects) && users.contributions == old(users.contributions)
      ensures id in old(projects) && old(projects)[id].createdBy != caller ==>
        && status == Forbidden && reply == MessageJson(NotOwnerMessage)
        && projects == old(projects) && users.contributions == old(users.contributions)
      ensures id in old(projects) && old(projects)[id].createdBy == caller ==>
        && status == Ok && reply == MessageJson(DeletedMessage)
        && projects == old(projects) - {id}
        && users.contributions == Bumped(old(users.contributions), caller, -1)
    {
      if id !in projects {
        return NotFound, MessageJson(NotFoundMessage);
      }
      if projects[id].createdBy != caller {
        return Forbidden, MessageJson(NotOwnerMessage);
      }
      projects := projects - {id};
      users.Increment(caller, -1);
      status, reply := Ok, MessageJson(DeletedMessage);
    }
  }

  /** A walk-through: A creates a project, B joins (two
      members), B joins again (400), B tries to delete (403), A deletes
      (200), after which the project is gone (404) and A's counter is back
      where it started. */
  method CreateJoinDeleteScenario(a: ObjectId, b: ObjectId, pid: ObjectId)
    returns (codes: seq<int>, membersAfterJoin: nat, counterRestored: bool)
    requires a != b
    ensures codes == [201, 200, 400, 403, 200, 404]
    ensures membersAfterJoin == 2
    ensures counterRestored
  {
    var users := new UserTable(map[a := 0, b := 0]);
    var store := new ProjectStore(users);
    var s1, _ := store.CreateProject(a, "Robotics Club", "", [], pid);
    var s2, r2 := store.JoinProject(b, pid);
    membersAfterJoin := |r2.project.members|;
    var s3, _ := store.JoinProject(b, pid);
    var s4, _ := store.DeleteProject(b, pid);
    var s5, _ := store.DeleteProject(a, pid);
    var s6, _ := store.GetProjectById(pid);
    codes := [s1.Code(), s2.Code(), s3.Code(), s4.Code(), s5.Code(), s6.Code()];
    counterRestored := users.contributions[a] == 0;
  }
}
