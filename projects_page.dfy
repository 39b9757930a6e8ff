/** The projects page: the fetched list, its split into other users'
    projects and the signed-in user's own, the rendering decisions, and the
    fetch and delete handlers that update the page state. */
module ProjectsPage {
  import opened Common
  import opened ClientTypes
  import Lists

  datatype ProjectCard = ProjectCard(id: ObjectId, title: string, description: string, createdBy: OwnerRef)

  /** The `otherUsersProjects` test for a signed-in user keeps a project
      with no owner, or whose owner (a populated object's id, or the bare
      id) differs from the user's: exactly the projects the user does not
      own. */
  function OtherUsersTest(uid: ObjectId): ProjectCard -> bool {
    (p: ProjectCard) => !OwnedBy(p.createdBy, uid)
  }

  /** The `myProjects` test compares a populated object's id, or else the
      field itself, with the user's id; a missing field never matches. That
      is ownership as `OwnedBy` states it. */
  function MineTest(uid: ObjectId): ProjectCard -> bool {
    (p: ProjectCard) => OwnedBy(p.createdBy, uid)
  }

  function CardId(p: ProjectCard): ObjectId {
    p.id
  }

  /** The main section's list: everything when nobody is signed in,
      otherwise the projects the user does not own, in fetched order. */
  function OtherUsersProjects(user: Option<ClientUser>, ps: seq<ProjectCard>): (r: seq<ProjectCard>)
    ensures user.None? ==> r == ps
    ensures user.Some? ==> forall p :: p in r <==> p in ps && !OwnedBy(p.createdBy, user.value.id)
    ensures user.Some? ==> forall p :: p in ps && p.createdBy.Absent? ==> p in r
    ensures Lists.IsSubsequence(r, ps)
  {
    if user.None? then
      Lists.SubsequenceOfItself(ps);
      ps
    else
      Lists.Filter(ps, OtherUsersTest(user.value.id))
  }

  /** The "My Projects" list: empty when nobody is signed in, otherwise the
      projects the user owns, in fetched order. */
  function MyProjects(user: Option<ClientUser>, ps: seq<ProjectCard>): (r: seq<ProjectCard>)
    ensures user.None? ==> r == []
    ensures user.Some? ==> forall p :: p in r <==> p in ps && OwnedBy(p.createdBy, user.value.id)
    ensures Lists.IsSubsequence(r, ps)
  {
    if user.None? then
      Lists.EmptyIsSubsequence(ps);
      []
    else
      Lists.Filter(ps, MineTest(user.value.id))
  }

  /** For a signed-in user the two lists split the fetched list: each
      project lands in exactly one of them, as often as it was fetched. */
  lemma ListsPartitionProjects(u: ClientUser, ps: seq<ProjectCard>)
    ensures multiset(OtherUsersProjects(Some(u), ps)) + multiset(MyProjects(Some(u), ps)) == multiset(ps)
    ensures |OtherUsersProjects(Some(u), ps)| + |MyProjects(Some(u), ps)| == |ps|
    ensures forall p :: p in ps ==> (p in OtherUsersProjects(Some(u), ps) <==> p !in MyProjects(Some(u), ps))
  {
  }

  /** Both lists are empty exactly when nothing was fetched. */
  lemma BothListsEmptyIffNoProjects(user: Option<ClientUser>, ps: seq<ProjectCard>)
    ensures (|OtherUsersProjects(user, ps)| == 0 && |MyProjects(user, ps)| == 0) <==> ps == []
  {
  }

  /** The main section's Delete-button test as written: no button without a
      user; with one, the owner field's `_id` is read unguarded and compared
      with the user's id, and then the field itself is. For a project
      without an owner that read throws; None stands for that TypeError. */
  function MainDeleteButtonAsWritten(user: Option<ClientUser>, p: ProjectCard): (r: Option<bool>)
    ensures r.None? <==> user.Some? && p.createdBy.Absent?
    ensures r.Some? ==> (r.value <==> user.Some? && OwnedBy(p.createdBy, user.value.id))
  {
    if user.None? then Some(false)
    else match p.createdBy
      case Absent => None
      case RawId(id) => Some(id == user.value.id)
      case Populated(id, _) => Some(id == user.value.id)
  }

  /** A signed-in user's page with an ownerless project lists that project
      in the main section, and rendering its card throws. */
  lemma OwnerlessProjectBreaksMainSection(u: ClientUser, p: ProjectCard)
    requires p.createdBy.Absent?
    ensures p in OtherUsersProjects(Some(u), [p])
    ensures MainDeleteButtonAsWritten(Some(u), p).None?
  {
  }

  /** The main section's Delete-button test with a presence guard on the
      owner field, as the filter above already has. */
  function MainDeleteButton(user: Option<ClientUser>, p: ProjectCard): (shown: bool)
    ensures shown <==> user.Some? && OwnedBy(p.createdBy, user.value.id)
    ensures MainDeleteButtonAsWritten(user, p).Some? ==> shown == MainDeleteButtonAsWritten(user, p).value
  {
    user.Some? && !p.createdBy.Absent? && p.createdBy.id == user.value.id
  }

  /** No card in the main section offers Delete: the user's own projects
      are only deletable from "My Projects". */
  lemma NoDeleteButtonInMainSection(user: Option<ClientUser>, ps: seq<ProjectCard>)
    ensures forall p :: p in OtherUsersProjects(user, ps) ==> !MainDeleteButton(user, p)
  {
  }

  /** What fills the area under the heading. */
  datatype MainArea = Spinner | NoProjectsYet | Cards(cards: seq<ProjectCard>, deletable: seq<bool>)

  /** The page: the main area, and the "My Projects" section (rendered
      outside the loading test; absent when its list is empty). */
  datatype PageView = PageView(main: MainArea, mySection: seq<ProjectCard>)

  /** The rendered page, with the main section's Delete test guarded as in
      `MainDeleteButton`; wherever the unguarded test does not throw, the
      two agree. */
  function Render(loading: bool, user: Option<ClientUser>, ps: seq<ProjectCard>): (v: PageView)
    ensures v.main.Spinner? <==> loading
    ensures v.main.NoProjectsYet? <==> !loading && ps == []
    ensures v.main.Cards? ==> v.main.cards == OtherUsersProjects(user, ps)
    ensures v.main.Cards? ==> |v.main.deletable| == |v.main.cards| && forall i :: 0 <= i < |v.main.deletable| ==> !v.main.deletable[i]
    ensures v.main.Cards? ==> forall i :: 0 <= i < |v.main.cards| && MainDeleteButtonAsWritten(user, v.main.cards[i]).Some? ==>
      v.main.deletable[i] == MainDeleteButtonAsWritten(user, v.main.cards[i]).value
    ensures v.mySection == MyProjects(user, ps)
  {
    var others, mine := OtherUsersProjects(user, ps), MyProjects(user, ps);
    BothListsEmptyIffNoProjects(user, ps);
    var main :=
      if loading then Spinner
      else if |others| == 0 && |mine| == 0 then NoProjectsYet
      else Cards(others, seq(|others|, i requires 0 <= i < |others| => MainDeleteButton(user, others[i])));
    NoDeleteButtonInMainSection(user, ps);
    PageView(main, mine)
  }

  const LoginRequired := "Login required"
  const LoadFailed := "Failed to load projects"
  const DeletedToast := "Project deleted"
  const DeleteFailed := "Failed to delete"

  /** The component state: the fetched projects and the loading flag. */
  class ProjectsView {
    var projects: seq<ProjectCard>
    var loading: bool

    constructor ()
      ensures projects == [] && loading
    {
      projects, loading := [], true;
    }

    /** `fetchProjects`: a response replaces the list; a failure keeps it
        and raises a toast. Loading is over either way. */
    method FetchProjects(response: Option<seq<ProjectCard>>) returns (toast: Toast)
      modifies this
      ensures !loading
      ensures response.Some? ==> projects == response.value && toast == NoToast
      ensures response.None? ==> projects == old(projects) && toast == ErrorToast(LoadFailed)
    {
      loading := true;
      toast := NoToast;
      if response.Some? {
        projects := response.value;
      } else {
        toast := ErrorToast(LoadFailed);
      }
      loading := false;
    }

    /** `handleDelete(id)`: nothing happens without a user or without
        confirmation; otherwise the request is sent, and only a success
        removes the entries with that id. */
    method HandleDelete(user: Option<ClientUser>, id: ObjectId, confirmed: bool, deleteOk: bool)
      returns (requestSent: bool, toast: Toast)
      modifies this
      ensures loading == old(loading)
      ensures requestSent <==> user.Some? && confirmed
      ensures user.None? ==> toast == ErrorToast(LoginRequired)
      ensures user.Some? && !confirmed ==> toast == NoToast
      ensures requestSent && deleteOk ==> toast == SuccessToast(DeletedToast) && projects == RemoveById(old(projects), CardId, id)
      ensures requestSent && !deleteOk ==> toast == ErrorToast(DeleteFailed)
      ensures !(requestSent && deleteOk) ==> projects == old(projects)
    {
      if user.None? {
        return false, ErrorToast(LoginRequired);
      }
      if !confirmed {
        return false, NoToast;
      }
      requestSent := true;
      if deleteOk {
        toast := SuccessToast(DeletedToast);
        projects := RemoveById(projects, CardId, id);
      } else {
        toast := ErrorToast(DeleteFailed);
      }
    }
  }
}
