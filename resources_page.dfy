/** The resources page: the fetched list, the signed-in user's own
    resources, the per-card View and Delete controls, and the fetch and
    delete handlers that update the page state. */
module ResourcesPage {
  import opened Common
  import opened ClientTypes
  import Lists

  datatype ResourceCard = ResourceCard(
    id: ObjectId,
    title: string,
    description: string,
    category: string,
    fileUrl: Option<string>,
    uploadedBy: OwnerRef)

  /** The `myResources` test keeps a resource whose uploader field is
      present and whose populated id, or bare id, equals the user's: that
      is ownership as `OwnedBy` states it. */
  function MineTest(uid: ObjectId): ResourceCard -> bool {
    (r: ResourceCard) => OwnedBy(r.uploadedBy, uid)
  }

  function CardId(r: ResourceCard): ObjectId {
    r.id
  }

  /** `myResources`: empty when nobody is signed in, otherwise the
      resources with a present uploader matching the user, in fetched
      order. */
  function MyResources(user: Option<ClientUser>, rs: seq<ResourceCard>): (r: seq<ResourceCard>)
    ensures user.None? ==> r == []
    ensures user.Some? ==> forall x :: x in r <==> x in rs && OwnedBy(x.uploadedBy, user.value.id)
    ensures user.Some? ==> forall x :: x in r ==> !x.uploadedBy.Absent?
    ensures Lists.IsSubsequence(r, rs)
  {
    if user.None? then
      Lists.EmptyIsSubsequence(rs);
      []
    else
      Lists.Filter(rs, MineTest(user.value.id))
  }

  /** The Delete test on a card of the main list: a user is signed in,
      the uploader field is present, and its populated id or bare id is the
      user's. */
  function DeleteButton(user: Option<ClientUser>, r: ResourceCard): (shown: bool)
    ensures shown <==> user.Some? && OwnedBy(r.uploadedBy, user.value.id)
    ensures shown ==> !r.uploadedBy.Absent?
  {
    user.Some? && !r.uploadedBy.Absent? && r.uploadedBy.id == user.value.id
  }

  /** The controls of one card: the View link and whether Delete is offered. */
  datatype CardControls = CardControls(viewHref: Option<string>, deleteButton: bool)

  /** A card links to its file exactly when `fileUrl` is truthy, and offers
      Delete exactly to the resource's uploader. */
  function Controls(user: Option<ClientUser>, r: ResourceCard): (c: CardControls)
    ensures c.viewHref.Some? <==> Truthy(r.fileUrl)
    ensures c.viewHref.Some? ==> c.viewHref == r.fileUrl && c.viewHref.value != ""
    ensures c.deleteButton <==> user.Some? && OwnedBy(r.uploadedBy, user.value.id)
  {
    CardControls(if Truthy(r.fileUrl) then r.fileUrl else None, DeleteButton(user, r))
  }

  /** A card offers Delete exactly when the resource is one of the user's. */
  lemma DeleteButtonIffMine(user: Option<ClientUser>, rs: seq<ResourceCard>, r: ResourceCard)
    requires r in rs
    ensures DeleteButton(user, r) <==> r in MyResources(user, rs)
  {
  }

  datatype MainArea = LoadingText | NoResources | Cards(cards: seq<ResourceCard>, controls: seq<CardControls>)

  /** The page: the main area, and the "My Resources" section (rendered
      outside the loading test; absent when its list is empty), each of
      whose entries offers Delete. */
  datatype PageView = PageView(main: MainArea, mySection: seq<ResourceCard>)

  function Render(loading: bool, user: Option<ClientUser>, rs: seq<ResourceCard>): (v: PageView)
    ensures v.main.LoadingText? <==> loading
    ensures v.main.NoResources? <==> !loading && rs == []
    ensures v.main.Cards? ==> v.main.cards == rs && |v.main.controls| == |rs|
    ensures v.main.Cards? ==> forall i :: 0 <= i < |rs| ==>
      && (v.main.controls[i].viewHref.Some? <==> Truthy(rs[i].fileUrl))
      && (v.main.controls[i].viewHref.Some? ==> v.main.controls[i].viewHref == rs[i].fileUrl)
      && (v.main.controls[i].deleteButton <==> rs[i] in MyResources(user, rs))
    ensures v.mySection == MyResources(user, rs)
  {
    var main :=
      if loading then LoadingText
      else if |rs| == 0 then NoResources
      else Cards(rs, seq(|rs|, i requires 0 <= i < |rs| => Controls(user, rs[i])));
    forall i | 0 <= i < |rs| ensures DeleteButton(user, rs[i]) <==> rs[i] in MyResources(user, rs) {
      DeleteButtonIffMine(user, rs, rs[i]);
    }
    PageView(main, MyResources(user, rs))
  }

  const LoginRequired := "Login required"
  const LoadFailed := "Failed to load resources"
  const DeletedToast := "Deleted successfully"
  const DeleteFailed := "Delete failed"

  /** The component state: the fetched resources and the loading flag. */
  class ResourcesView {
    var resources: seq<ResourceCard>
    var loading: bool

    constructor ()
      ensures resources == [] && loading
    {
      resources, loading := [], true;
    }

    /** `fetchResources`: a response replaces the list; a failure keeps it
        and raises a toast. Loading is over either way. */
    method FetchResources(response: Option<seq<ResourceCard>>) returns (toast: Toast)
      modifies this
      ensures !loading
      ensures response.Some? ==> resources == response.value && toast == NoToast
      ensures response.None? ==> resources == old(resources) && toast == ErrorToast(LoadFailed)
    {
      loading := true;
      toast := NoToast;
      if response.Some? {
        resources := response.value;
      } else {
        toast := ErrorToast(LoadFailed);
      }
      loading := false;
    }

    /** `handleDelete(id)`: nothing happens without a user or without
        confirmation; otherwise the request is sent, and only a success
        removes the entries with that id. */
    method HandleDelete(user: Option<ClientUser>, id: ObjectId, confirmed: bool, deleteOk: bool)
      returns (requestSent: bool, toast: Toast)
      modifies this
      ensures loading == old(loading)
      ensures requestSent <==> user.Some? && confirmed
      ensures user.None? ==> toast == ErrorToast(LoginRequired)
      ensures user.Some? && !confirmed ==> toast == NoToast
      ensures requestSent && deleteOk ==> toast == SuccessToast(DeletedToast) && resources == RemoveById(old(resources), CardId, id)
      ensures requestSent && !deleteOk ==> toast == ErrorToast(DeleteFailed)
      ensures !(requestSent && deleteOk) ==> resources == old(resources)
    {
      if user.None? {
        return false, ErrorToast(LoginRequired);
      }
      if !confirmed {
        return false, NoToast;
      }
      requestSent := true;
      if deleteOk {
        toast := SuccessToast(DeletedToast);
        resources := RemoveById(resources, CardId, id);
      } else {
        toast := ErrorToast(DeleteFailed);
      }
    }
  }
}
