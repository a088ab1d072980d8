/**
 * The job list of src/components/ImageGenerator.tsx as values: the `GeneratedImage`
 * record, the updates the component applies to it through `Array.prototype.map`, the
 * `find`/`findIndex`/`splice` steps of the derivative handlers, and the grouping of
 * derived jobs under their originals that the page renders.
 */
module Images {
  import opened Wrappers
  import opened Text

  datatype ImageStatus = Pending | Completed | Failed

  datatype ImageType = Original | Upscale | Variation

  /** One entry of `next_actions`: an action name and the choices it offers. */
  datatype Action = Action(actionType: string, choices: Option<seq<int>>)

  /** An entry of the job list; an absent optional field is `None`. */
  datatype GeneratedImage = GeneratedImage(
    id: string,
    status: ImageStatus,
    imageUrl: Option<string>,
    prompt: string,
    error: Option<string>,
    progress: Option<int>,
    hash: Option<string>,
    actions: Option<seq<Action>>,
    parentId: Option<string>,
    imageType: Option<ImageType>,
    choice: Option<int>)

  /** A string field that JavaScript treats as true: present and not empty. */
  predicate Present(s: Option<string>) {
    s.Some? && s.value != ""
  }

  function Min(a: int, b: int): int {
    if a <= b then a else b
  }

  /** The four ways the component rewrites the entry whose id matches. */
  datatype ImagePatch =
    | SetHash(hash: string)
    | Fail(message: string)
    | Complete(url: string, replyHash: Option<string>, nextActions: Option<seq<Action>>)
    | SetProgress(value: int)

  /** The object spread `{ ...img, <fields> }` of each update. */
  function Apply(img: GeneratedImage, p: ImagePatch): (r: GeneratedImage)
    ensures r.id == img.id && r.prompt == img.prompt && r.parentId == img.parentId
      && r.imageType == img.imageType && r.choice == img.choice
    ensures p.SetHash? ==>
      && r.hash == Some(p.hash)
      && r.status == img.status && r.progress == img.progress && r.imageUrl == img.imageUrl
      && r.error == img.error && r.actions == img.actions
    ensures p.Fail? ==>
      && r.status == Failed && r.error == Some(p.message)
      && r.progress == img.progress && r.hash == img.hash && r.imageUrl == img.imageUrl && r.actions == img.actions
    ensures p.Complete? ==>
      && r.status == Completed && r.progress == Some(100) && r.imageUrl == Some(p.url)
      && r.hash == p.replyHash && r.actions == p.nextActions && r.error == img.error
    ensures p.SetProgress? ==>
      && r.progress == Some(Min(p.value, 100)) && r.progress.value <= 100
      && r.status == (if p.value >= 100 then Completed else Pending)
      && r.hash == img.hash && r.imageUrl == img.imageUrl && r.error == img.error && r.actions == img.actions
  {
    match p
    case SetHash(h) => img.(hash := Some(h))
    case Fail(m) => img.(status := Failed, error := Some(m))
    case Complete(u, h, a) => img.(status := Completed, progress := Some(100), imageUrl := Some(u), hash := h, actions := a)
    case SetProgress(v) => img.(progress := Some(Min(v, 100)), status := if v >= 100 then Completed else Pending)
  }

  /** `images.map(img => img.id === id ? <patched> : img)` */
  function MapImages(images: seq<GeneratedImage>, id: string, p: ImagePatch): (r: seq<GeneratedImage>)
    ensures |r| == |images|
    ensures forall i :: 0 <= i < |images| ==> r[i] == if images[i].id == id then Apply(images[i], p) else images[i]
  {
    if images == [] then []
    else [if images[0].id == id then Apply(images[0], p) else images[0]] + MapImages(images[1..], id, p)
  }

  /** `images.findIndex(img => img.id === id)`: the first position holding `id`, or -1. */
  function FindIndex(images: seq<GeneratedImage>, id: string): (i: int)
    ensures -1 <= i < |images|
    ensures 0 <= i ==> images[i].id == id
    ensures forall j :: 0 <= j < |images| && (i == -1 || j < i) ==> images[j].id != id
  {
    if images == [] then -1
    else if images[0].id == id then 0
    else var k := FindIndex(images[1..], id); if k == -1 then -1 else k + 1
  }

  /** `images.find(img => img.id === id)` */
  function FindImage(images: seq<GeneratedImage>, id: string): (r: Option<GeneratedImage>)
    ensures r.None? <==> forall j :: 0 <= j < |images| ==> images[j].id != id
    ensures r.Some? ==> r.value in images && r.value.id == id
    ensures r.Some? ==> r.value == images[FindIndex(images, id)]
  {
    var i := FindIndex(images, id);
    if i == -1 then None else Some(images[i])
  }

  /** `copy.splice(i, 0, img)` on a copy of the list. */
  function InsertAt(images: seq<GeneratedImage>, i: nat, img: GeneratedImage): (r: seq<GeneratedImage>)
    requires i <= |images|
    ensures |r| == |images| + 1 && r[i] == img
  {
    images[..i] + [img] + images[i..]
  }

  /** The list with the entry at position `i` taken out. */
  function RemoveAt(images: seq<GeneratedImage>, i: nat): (r: seq<GeneratedImage>)
    requires i < |images|
    ensures |r| == |images| - 1
  {
    images[..i] + images[i + 1..]
  }

  /** Inserting and taking out again gives back the list; the entries before and after
    * keep their order, and the list gains exactly the one entry. */
  lemma {:induction false} InsertAtIsOneMore(images: seq<GeneratedImage>, i: nat, img: GeneratedImage)
    requires i <= |images|
    ensures RemoveAt(InsertAt(images, i, img), i) == images
    ensures InsertAt(images, i, img)[..i] == images[..i] && InsertAt(images, i, img)[i + 1..] == images[i..]
    ensures multiset(InsertAt(images, i, img)) == multiset(images) + multiset{img}
  {
    var r := InsertAt(images, i, img);
    assert r[..i] == images[..i];
    assert r[i + 1..] == images[i..];
    assert images[..i] + images[i..] == images;
  }

  // ---------------------------------------------------------------------------
  // Derived jobs

  datatype DerivativeKind = UpscaleJob | VariationJob

  function KindType(kind: DerivativeKind): ImageType {
    match kind
    case UpscaleJob => Upscale
    case VariationJob => Variation
  }

  /** The prompt text shown for a derived job. */
  function DerivativePrompt(kind: DerivativeKind, choice: nat, parentPrompt: string): string {
    match kind
    case UpscaleJob => "Upscaled version " + DecimalString(choice) + " of \"" + parentPrompt + "\""
    case VariationJob => "Variation " + DecimalString(choice) + " of \"" + parentPrompt + "\""
  }

  /** The pending entry a derivative handler creates for a returned hash. */
  function NewDerivative(kind: DerivativeKind, newId: string, parentImageId: string, parent: GeneratedImage,
                         choice: nat, hash: string): GeneratedImage
  {
    GeneratedImage(newId, Pending, None, DerivativePrompt(kind, choice, parent.prompt), None, Some(0),
                   Some(hash), None, Some(parentImageId), Some(KindType(kind)), Some(choice))
  }

  /** The state updater of a derivative handler: the new entry goes right after its parent,
    * and the list is returned unchanged when the parent is no longer in it. */
  function InsertDerivative(images: seq<GeneratedImage>, parentImageId: string, child: GeneratedImage): (r: seq<GeneratedImage>)
    ensures var i := FindIndex(images, parentImageId);
      && (i == -1 ==> r == images)
      && (i != -1 ==>
            && |r| == |images| + 1 && r[i + 1] == child
            && r[..i + 1] == images[..i + 1] && r[i + 2..] == images[i + 1..])
  {
    var i := FindIndex(images, parentImageId);
    if i == -1 then images
    else
      InsertAtIsOneMore(images, i + 1, child);
      InsertAt(images, i + 1, child)
  }

  // ---------------------------------------------------------------------------
  // Grouping of derived jobs under their originals

  /** `!image.parentId`: no parent id, or an empty one. */
  predicate IsRoot(img: GeneratedImage) {
    !Present(img.parentId)
  }

  /** `all.filter(img => img.parentId === id)` */
  function Children(all: seq<GeneratedImage>, id: string): seq<GeneratedImage> {
    if all == [] then []
    else (if all[0].parentId == Some(id) then [all[0]] else []) + Children(all[1..], id)
  }

  lemma {:induction false} ChildrenMembers(all: seq<GeneratedImage>, id: string, x: GeneratedImage)
    ensures x in Children(all, id) <==> x in all && x.parentId == Some(id)
  {
    if all != [] {
      ChildrenMembers(all[1..], id, x);
      assert all == [all[0]] + all[1..];
    }
  }

  /** The callback of `reduce` applied to the entries of `rest` in turn, starting from `groups`. */
  function ReduceGroups(all: seq<GeneratedImage>, rest: seq<GeneratedImage>, groups: seq<seq<GeneratedImage>>)
    : seq<seq<GeneratedImage>>
    decreases |rest|
  {
    if rest == [] then groups
    else
      var groups' := if IsRoot(rest[0]) then groups + [[rest[0]] + Children(all, rest[0].id)] else groups;
      ReduceGroups(all, rest[1..], groups')
  }

  /** `generatedImages.reduce(…, [])` at the page's job grid. */
  function GroupImages(all: seq<GeneratedImage>): seq<seq<GeneratedImage>> {
    ReduceGroups(all, all, [])
  }

  /** The entries without a parent, in list order. */
  function Roots(images: seq<GeneratedImage>): seq<GeneratedImage> {
    if images == [] then []
    else (if IsRoot(images[0]) then [images[0]] else []) + Roots(images[1..])
  }

  lemma {:induction false} RootsMembers(images: seq<GeneratedImage>, x: GeneratedImage)
    ensures x in Roots(images) <==> x in images && IsRoot(x)
  {
    if images != [] {
      RootsMembers(images[1..], x);
      assert images == [images[0]] + images[1..];
    }
  }

  /** One group per root, in order: the root followed by its children. */
  function RootGroups(all: seq<GeneratedImage>, roots: seq<GeneratedImage>): seq<seq<GeneratedImage>> {
    if roots == [] then [] else [[roots[0]] + Children(all, roots[0].id)] + RootGroups(all, roots[1..])
  }

  lemma {:induction false} RootGroupsAt(all: seq<GeneratedImage>, roots: seq<GeneratedImage>)
    ensures |RootGroups(all, roots)| == |roots|
    ensures forall i :: 0 <= i < |roots| ==> RootGroups(all, roots)[i] == [roots[i]] + Children(all, roots[i].id)
  {
    if roots != [] {
      RootGroupsAt(all, roots[1..]);
    }
  }

  lemma {:induction false} ReduceGroupsIsRootGroups(all: seq<GeneratedImage>, rest: seq<GeneratedImage>,
                                                   groups: seq<seq<GeneratedImage>>)
    ensures ReduceGroups(all, rest, groups) == groups + RootGroups(all, Roots(rest))
    decreases |rest|
  {
    if rest == [] {
      assert groups + [] == groups;
    } else {
      var x := rest[0];
      var groups' := if IsRoot(x) then groups + [[x] + Children(all, x.id)] else groups;
      ReduceGroupsIsRootGroups(all, rest[1..], groups');
      var later := RootGroups(all, Roots(rest[1..]));
      if IsRoot(x) {
        var g := [x] + Children(all, x.id);
        assert Roots(rest) == [x] + Roots(rest[1..]);
        assert RootGroups(all, Roots(rest)) == [g] + later;
        assert (groups + [g]) + later == groups + ([g] + later);
      } else {
        assert Roots(rest) == Roots(rest[1..]);
      }
    }
  }

  /** The grid shows one group per entry without a parent, in list order, each headed by
    * that entry and followed by the entries that name it as parent. */
  lemma {:induction false} GroupImagesByRoot(all: seq<GeneratedImage>)
    ensures |GroupImages(all)| == |Roots(all)|
    ensures forall i :: 0 <= i < |Roots(all)| ==>
      GroupImages(all)[i] == [Roots(all)[i]] + Children(all, Roots(all)[i].id)
  {
    ReduceGroupsIsRootGroups(all, all, []);
    RootGroupsAt(all, Roots(all));
    assert [] + RootGroups(all, Roots(all)) == RootGroups(all, Roots(all));
  }

  /** The entry appears somewhere in the groups. */
  ghost predicate Shown(groups: seq<seq<GeneratedImage>>, x: GeneratedImage) {
    exists i, k :: 0 <= i < |groups| && 0 <= k < |groups[i]| && groups[i][k] == x
  }

  /** The entry has no parent, or its parent id names an entry of `all` without one. */
  ghost predicate RootOrChildOfRoot(all: seq<GeneratedImage>, x: GeneratedImage) {
    x in all && (IsRoot(x) || exists r :: r in all && IsRoot(r) && x.parentId == Some(r.id))
  }

  lemma {:induction false} ShownAt(all: seq<GeneratedImage>, x: GeneratedImage, i: nat, k: nat)
    requires i < |GroupImages(all)| && k < |GroupImages(all)[i]| && GroupImages(all)[i][k] == x
    ensures RootOrChildOfRoot(all, x)
  {
    GroupImagesByRoot(all);
    var root := Roots(all)[i];
    RootsMembers(all, root);
    if k == 0 {
      assert x == root;
    } else {
      assert x == Children(all, root.id)[k - 1];
      ChildrenMembers(all, root.id, x);
    }
  }

  lemma {:induction false} RootShown(all: seq<GeneratedImage>, x: GeneratedImage)
    requires x in all && IsRoot(x)
    ensures Shown(GroupImages(all), x)
  {
    var roots := Roots(all);
    GroupImagesByRoot(all);
    RootsMembers(all, x);
    var i :| 0 <= i < |roots| && roots[i] == x;
    assert GroupImages(all)[i][0] == x;
  }

  lemma {:induction false} ChildShown(all: seq<GeneratedImage>, x: GeneratedImage, r: GeneratedImage)
    requires x in all && r in all && IsRoot(r) && x.parentId == Some(r.id)
    ensures Shown(GroupImages(all), x)
  {
    var roots := Roots(all);
    GroupImagesByRoot(all);
    RootsMembers(all, r);
    var i :| 0 <= i < |roots| && roots[i] == r;
    var c := Children(all, r.id);
    ChildrenMembers(all, r.id, x);
    var k :| 0 <= k < |c| && c[k] == x;
    assert GroupImages(all)[i] == [r] + c;
    assert GroupImages(all)[i][k + 1] == x;
  }

  /** An entry is shown exactly when it has no parent, or its parent id names an entry without
    * one: a child of a child, and a child whose parent is gone, are not shown. */
  lemma {:induction false} ShownImages(all: seq<GeneratedImage>, x: GeneratedImage)
    ensures Shown(GroupImages(all), x) <==> RootOrChildOfRoot(all, x)
  {
    var g := GroupImages(all);
    if Shown(g, x) {
      var i, k :| 0 <= i < |g| && 0 <= k < |g[i]| && g[i][k] == x;
      ShownAt(all, x, i, k);
    }
    if RootOrChildOfRoot(all, x) {
      if IsRoot(x) {
        RootShown(all, x);
      } else {
        var r :| r in all && IsRoot(r) && x.parentId == Some(r.id);
        ChildShown(all, x, r);
      }
    }
  }
}
