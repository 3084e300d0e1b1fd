/**
 * The workspace's shared state and its reducer: the open project with its
 * placed images and SVGs keyed by id, the media downloaded so far (one entry
 * per media path), the current tool, and the placements still waiting for
 * the server. Every action builds a new state; only the parts the action
 * names change.
 */
module Workspace {
  import opened JsMath

  /** An image placed on the canvas of a project; `pending` marks one still waiting for the server. */
  datatype ProjectImg = ProjectImg(
    key: string, mediaPath: string, width: real, height: real, top: real, left: real, pending: bool)

  /** An SVG placed on the canvas of a project; `pending` marks one still waiting for the server. */
  datatype ProjectSvg = ProjectSvg(
    key: string, mediaPath: string, width: real, height: real, top: real, left: real,
    viewbox: string, fill: string, stroke: string, strokeWidth: real, pending: bool)

  /** An image downloaded from the media library. */
  datatype EncodedImg = EncodedImg(mediaPath: string, width: real, height: real, src: string)

  /** An SVG downloaded from the media library. */
  datatype EncodedSvg = EncodedSvg(
    mediaPath: string, width: real, height: real,
    viewbox: string, fill: string, stroke: string, strokeWidth: real, markup: string)

  /** A project; `lastActive` is its last-active timestamp, already parsed to a number. */
  datatype Project = Project(
    name: string, canvasWidth: real, canvasHeight: real,
    frameTop: real, frameLeft: real, frameWidth: real, frameHeight: real,
    projectId: string, timestamp: string, lastActive: int,
    imgs: map<string, ProjectImg>, svgs: map<string, ProjectSvg>)

  datatype Thumbnail = SvgThumbnail(svg: EncodedSvg) | ImgThumbnail(img: EncodedImg)

  /** The drop tool may carry the media it drops; the delete tool carries nothing. */
  datatype Tool = Drop(value: Option<Thumbnail>) | Delete

  datatype WorkspaceState = WorkspaceState(
    project: Project,
    downloadedImgs: seq<EncodedImg>,
    downloadedSvgs: seq<EncodedSvg>,
    tool: Option<Tool>,
    pendingImgs: map<string, ProjectImg>,
    pendingSvgs: map<string, ProjectSvg>)

  datatype Action =
    | SetWorkspace(workspace: WorkspaceState)
    | SetProject(newProject: Project)
    | AddDownloadedImg(downloadedImg: EncodedImg)
    | AddDownloadedSvg(downloadedSvg: EncodedSvg)
    | SetTool(newTool: Option<Tool>)
    | SetProjectImg(projectImg: ProjectImg)
    | SetProjectSvg(projectSvg: ProjectSvg)
    | DeleteProjectImg(imgKey: string)
    | DeleteProjectSvg(svgKey: string)
    | SetPendingImg(pendingImg: ProjectImg)
    | SetPendingSvg(pendingSvg: ProjectSvg)
    | DeletePendingImg(pendingImgKey: string)
    | DeletePendingSvg(pendingSvgKey: string)

  /**
   * One keyframe of a scale effect: for canvas element `inputId`, the zoom
   * `scale` reached at `time`. The element type of `solution` is not given
   * by the source; it is only ever created empty.
   */
  datatype Equation = Equation(inputId: string, time: real, scale: real, loop: bool, solution: seq<real>)

  /** A scale effect: when it runs on the timeline and its keyframes by element key. */
  datatype Scale = Scale(
    scaleId: string, projectId: string, layerId: string,
    offset: real, duration: real, fps: real, order: int,
    math: map<string, Equation>)

  /** A move effect; only its timing is used by the code modelled here. */
  datatype Move = Move(offset: real, duration: real, order: int)

  /** An effect on the timeline, tagged by its kind and keyed by its id. */
  datatype Effect = ScaleEffect(key: string, scale: Scale) | MoveEffect(key: string, move: Move)
  {
    function Offset(): real {
      if ScaleEffect? then scale.offset else move.offset
    }

    function Duration(): real {
      if ScaleEffect? then scale.duration else move.duration
    }
  }

  /** The project a workspace starts with when there is none to resume. */
  const DefaultProject: Project := Project(
    "[untitled]", 5000.0, 5000.0, -1.0, -1.0, 1080.0, 1440.0, "", "", 0, map[], map[])

  /** The tool a workspace starts with: the drop tool, holding nothing yet. */
  const DefaultTool: Option<Tool> := Some(Drop(None))

  const DefaultWorkspace: WorkspaceState := WorkspaceState(DefaultProject, [], [], DefaultTool, map[], map[])

  /** `Array.prototype.findIndex`: the first index whose element matches, or -1. */
  function FindIndex<T>(xs: seq<T>, matches: T -> bool): (i: int)
    ensures -1 <= i < |xs|
    ensures i < 0 <==> forall j :: 0 <= j < |xs| ==> !matches(xs[j])
    ensures 0 <= i ==> matches(xs[i]) && forall j :: 0 <= j < i ==> !matches(xs[j])
  {
    if xs == [] then -1
    else if matches(xs[0]) then 0
    else
      var i := FindIndex(xs[1..], matches);
      if i < 0 then -1 else i + 1
  }

  /** No two downloaded images share a media path. */
  predicate UniqueImgPaths(imgs: seq<EncodedImg>) {
    forall i, j :: 0 <= i < j < |imgs| ==> imgs[i].mediaPath != imgs[j].mediaPath
  }

  /** No two downloaded SVGs share a media path. */
  predicate UniqueSvgPaths(svgs: seq<EncodedSvg>) {
    forall i, j :: 0 <= i < j < |svgs| ==> svgs[i].mediaPath != svgs[j].mediaPath
  }

  /** The invariant the download lists keep: one entry per media path. */
  predicate DownloadsUnique(state: WorkspaceState) {
    UniqueImgPaths(state.downloadedImgs) && UniqueSvgPaths(state.downloadedSvgs)
  }

  /**
   * `workspaceContextReducer`: the state after `action`. Apart from
   * `SetWorkspace`, which replaces everything, each part of the state is
   * changed only by the actions that name it, and a tool once chosen is
   * never taken away.
   */
  function Reduce(state: WorkspaceState, action: Action): (r: WorkspaceState)
    ensures action.SetWorkspace? ==> r == action.workspace
    ensures !action.SetWorkspace? && !action.SetProject? ==>
      r.project.(imgs := state.project.imgs, svgs := state.project.svgs) == state.project
    ensures !action.SetWorkspace? && !action.SetProject? && !action.SetProjectImg? && !action.DeleteProjectImg? ==>
      r.project.imgs == state.project.imgs
    ensures !action.SetWorkspace? && !action.SetProject? && !action.SetProjectSvg? && !action.DeleteProjectSvg? ==>
      r.project.svgs == state.project.svgs
    ensures !action.SetWorkspace? && !action.AddDownloadedImg? ==> r.downloadedImgs == state.downloadedImgs
    ensures !action.SetWorkspace? && !action.AddDownloadedSvg? ==> r.downloadedSvgs == state.downloadedSvgs
    ensures !action.SetWorkspace? && !action.SetTool? ==> r.tool == state.tool
    ensures !action.SetWorkspace? && state.tool.Some? ==> r.tool.Some?
    ensures !action.SetWorkspace? && !action.SetPendingImg? && !action.DeletePendingImg? ==> r.pendingImgs == state.pendingImgs
    ensures !action.SetWorkspace? && !action.SetPendingSvg? && !action.DeletePendingSvg? ==> r.pendingSvgs == state.pendingSvgs
    ensures !action.SetWorkspace? ==> |state.downloadedImgs| <= |r.downloadedImgs| && |state.downloadedSvgs| <= |r.downloadedSvgs|
  {
    match action
    case SetWorkspace(w) => w
    case SetProject(p) => state.(project := p)
    case AddDownloadedImg(img) =>
      if FindIndex(state.downloadedImgs, (e: EncodedImg) => e.mediaPath == img.mediaPath) < 0
      then state.(downloadedImgs := state.downloadedImgs + [img])
      else state
    case AddDownloadedSvg(svg) =>
      if FindIndex(state.downloadedSvgs, (e: EncodedSvg) => e.mediaPath == svg.mediaPath) < 0
      then state.(downloadedSvgs := state.downloadedSvgs + [svg])
      else state
    case SetTool(t) =>
      if t.Some? then state.(tool := t) else state
    case SetProjectImg(img) =>
      state.(project := state.project.(imgs := state.project.imgs[img.key := img]))
    case SetProjectSvg(svg) =>
      state.(project := state.project.(svgs := state.project.svgs[svg.key := svg]))
    case DeleteProjectImg(key) =>
      state.(project := state.project.(imgs := state.project.imgs - {key}))
    case DeleteProjectSvg(key) =>
      state.(project := state.project.(svgs := state.project.svgs - {key}))
    case SetPendingImg(img) => state.(pendingImgs := state.pendingImgs[img.key := img])
    case SetPendingSvg(svg) => state.(pendingSvgs := state.pendingSvgs[svg.key := svg])
    case DeletePendingImg(key) => state.(pendingImgs := state.pendingImgs - {key})
    case DeletePendingSvg(key) => state.(pendingSvgs := state.pendingSvgs - {key})
  }

  /**
   * Adding a downloaded image: when its media path is new it is appended
   * and nothing else changes; otherwise the state is left as it was. Either
   * way the path is then present exactly once.
   */
  lemma AddDownloadedImgEffect(state: WorkspaceState, img: EncodedImg)
    requires UniqueImgPaths(state.downloadedImgs)
    ensures var r := Reduce(state, AddDownloadedImg(img));
      (if forall j :: 0 <= j < |state.downloadedImgs| ==> state.downloadedImgs[j].mediaPath != img.mediaPath
       then r.downloadedImgs == state.downloadedImgs + [img]
       else r == state) &&
      r.project == state.project && r.downloadedSvgs == state.downloadedSvgs && r.tool == state.tool &&
      r.pendingImgs == state.pendingImgs && r.pendingSvgs == state.pendingSvgs &&
      UniqueImgPaths(r.downloadedImgs) &&
      exists j :: 0 <= j < |r.downloadedImgs| && r.downloadedImgs[j].mediaPath == img.mediaPath
  {
    var r := Reduce(state, AddDownloadedImg(img));
    var i := FindIndex(state.downloadedImgs, (e: EncodedImg) => e.mediaPath == img.mediaPath);
    if i < 0 {
      assert r.downloadedImgs[|r.downloadedImgs| - 1] == img;
    } else {
      assert state.downloadedImgs[i].mediaPath == img.mediaPath;
    }
  }

  /** The same rule for downloaded SVGs. */
  lemma AddDownloadedSvgEffect(state: WorkspaceState, svg: EncodedSvg)
    requires UniqueSvgPaths(state.downloadedSvgs)
    ensures var r := Reduce(state, AddDownloadedSvg(svg));
      (if forall j :: 0 <= j < |state.downloadedSvgs| ==> state.downloadedSvgs[j].mediaPath != svg.mediaPath
       then r.downloadedSvgs == state.downloadedSvgs + [svg]
       else r == state) &&
      r.project == state.project && r.downloadedImgs == state.downloadedImgs && r.tool == state.tool &&
      r.pendingImgs == state.pendingImgs && r.pendingSvgs == state.pendingSvgs &&
      UniqueSvgPaths(r.downloadedSvgs) &&
      exists j :: 0 <= j < |r.downloadedSvgs| && r.downloadedSvgs[j].mediaPath == svg.mediaPath
  {
    var r := Reduce(state, AddDownloadedSvg(svg));
    var i := FindIndex(state.downloadedSvgs, (e: EncodedSvg) => e.mediaPath == svg.mediaPath);
    if i < 0 {
      assert r.downloadedSvgs[|r.downloadedSvgs| - 1] == svg;
    } else {
      assert state.downloadedSvgs[i].mediaPath == svg.mediaPath;
    }
  }

  /**
   * Every action keeps one download per media path, provided a whole
   * replacement workspace keeps it too.
   */
  lemma ReducePreservesUniqueDownloads(state: WorkspaceState, action: Action)
    requires DownloadsUnique(state)
    requires action.SetWorkspace? ==> DownloadsUnique(action.workspace)
    ensures DownloadsUnique(Reduce(state, action))
  {
    match action
    case AddDownloadedImg(img) => AddDownloadedImgEffect(state, img);
    case AddDownloadedSvg(svg) => AddDownloadedSvgEffect(state, svg);
    case _ =>
  }

  /** Setting no tool changes nothing; setting a tool changes only the tool. */
  lemma SetToolEffect(state: WorkspaceState, t: Option<Tool>)
    ensures t.None? ==> Reduce(state, SetTool(t)) == state
    ensures t.Some? ==> Reduce(state, SetTool(t)).tool == t
    ensures Reduce(state, SetTool(t)).(tool := state.tool) == state
  {
  }

  /**
   * Setting a project image maps its key to it; every other key keeps its
   * image, and no other part of the project or the workspace changes.
   */
  lemma SetProjectImgEffect(state: WorkspaceState, img: ProjectImg)
    ensures var r := Reduce(state, SetProjectImg(img));
      r.project.imgs.Keys == state.project.imgs.Keys + {img.key} &&
      r.project.imgs[img.key] == img &&
      (forall k :: k in state.project.imgs && k != img.key ==> r.project.imgs[k] == state.project.imgs[k]) &&
      r.project.(imgs := state.project.imgs) == state.project &&
      r.(project := state.project) == state
  {
  }

  /** Setting a project SVG: the same rule over the project's SVGs. */
  lemma SetProjectSvgEffect(state: WorkspaceState, svg: ProjectSvg)
    ensures var r := Reduce(state, SetProjectSvg(svg));
      r.project.svgs.Keys == state.project.svgs.Keys + {svg.key} &&
      r.project.svgs[svg.key] == svg &&
      (forall k :: k in state.project.svgs && k != svg.key ==> r.project.svgs[k] == state.project.svgs[k]) &&
      r.project.(svgs := state.project.svgs) == state.project &&
      r.(project := state.project) == state
  {
  }

  /**
   * Deleting a project image removes its key; every other image stays as it
   * was, and no other part of the project or the workspace changes.
   */
  lemma DeleteProjectImgEffect(state: WorkspaceState, key: string)
    ensures var r := Reduce(state, DeleteProjectImg(key));
      r.project.imgs.Keys == state.project.imgs.Keys - {key} &&
      (forall k :: k in r.project.imgs ==> r.project.imgs[k] == state.project.imgs[k]) &&
      r.project.(imgs := state.project.imgs) == state.project &&
      r.(project := state.project) == state
  {
  }

  /** Deleting a project SVG: the same rule over the project's SVGs. */
  lemma DeleteProjectSvgEffect(state: WorkspaceState, key: string)
    ensures var r := Reduce(state, DeleteProjectSvg(key));
      r.project.svgs.Keys == state.project.svgs.Keys - {key} &&
      (forall k :: k in r.project.svgs ==> r.project.svgs[k] == state.project.svgs[k]) &&
      r.project.(svgs := state.project.svgs) == state.project &&
      r.(project := state.project) == state
  {
  }

  /** The pending-placement actions change only their own pending map. */
  lemma PendingEffects(state: WorkspaceState, img: ProjectImg, svg: ProjectSvg, key: string)
    ensures var r := Reduce(state, SetPendingImg(img));
      r.pendingImgs.Keys == state.pendingImgs.Keys + {img.key} && r.pendingImgs[img.key] == img &&
      r.(pendingImgs := state.pendingImgs) == state
    ensures var r := Reduce(state, SetPendingSvg(svg));
      r.pendingSvgs.Keys == state.pendingSvgs.Keys + {svg.key} && r.pendingSvgs[svg.key] == svg &&
      r.(pendingSvgs := state.pendingSvgs) == state
    ensures var r := Reduce(state, DeletePendingImg(key));
      r.pendingImgs.Keys == state.pendingImgs.Keys - {key} && r.(pendingImgs := state.pendingImgs) == state
    ensures var r := Reduce(state, DeletePendingSvg(key));
      r.pendingSvgs.Keys == state.pendingSvgs.Keys - {key} && r.(pendingSvgs := state.pendingSvgs) == state
  {
  }

  /** Setting an image and then deleting its key leaves the project's images as if it had never been set, when it was not there before. */
  lemma SetThenDeleteProjectImg(state: WorkspaceState, img: ProjectImg)
    requires img.key !in state.project.imgs
    ensures Reduce(Reduce(state, SetProjectImg(img)), DeleteProjectImg(img.key)) == state
  {
    assert state.project.imgs[img.key := img] - {img.key} == state.project.imgs;
  }

  /**
   * The project a workspace resumes: the first of those with the latest
   * last-active time, which is what a stable sort by descending last-active
   * time puts first.
   */
  function MostRecent(projects: seq<Project>): (i: nat)
    requires projects != []
    ensures i < |projects|
    ensures forall j :: 0 <= j < |projects| ==> projects[j].lastActive <= projects[i].lastActive
    ensures forall j :: 0 <= j < i ==> projects[j].lastActive < projects[i].lastActive
  {
    if |projects| == 1 then 0
    else
      var k := MostRecent(projects[1..]) + 1;
      if projects[0].lastActive >= projects[k].lastActive then 0 else k
  }

  /**
   * `initReducer`: the most recent project when there is one, the default
   * project otherwise; no downloads, the default tool, nothing pending.
   */
  function InitWorkspace(projects: Option<seq<Project>>): (s: WorkspaceState)
    ensures s.downloadedImgs == [] && s.downloadedSvgs == [] && s.tool == DefaultTool
    ensures s.pendingImgs == map[] && s.pendingSvgs == map[]
    ensures DownloadsUnique(s)
    ensures projects.None? || projects.value == [] ==> s.project == DefaultProject
    ensures projects.Some? && projects.value != [] ==>
      s.project in projects.value &&
      forall p :: p in projects.value ==> p.lastActive <= s.project.lastActive
  {
    var project :=
      if projects.Some? && projects.value != [] then projects.value[MostRecent(projects.value)]
      else DefaultProject;
    WorkspaceState(project, [], [], DefaultTool, map[], map[])
  }

  /** Which of the media browser's two page lists is showing. */
  datatype MediaFilter = ImgFilter | SvgFilter

  /**
   * The previous-page rule: nothing happens on page 0; otherwise the page
   * goes back by one, never below 0.
   */
  function PrevPageIndex(index: int): (r: Option<int>)
    ensures r.None? <==> index == 0
    ensures r.Some? ==> 0 <= r.value && (index > 0 ==> r.value == index - 1)
  {
    if index != 0 then Some(MaxInt(0, index - 1)) else None
  }

  /** The next-page rule: the page moves on by one only when the server returned the page. */
  function NextPageIndex(index: int, responded: bool): (r: Option<int>)
    ensures r.Some? <==> responded
    ensures r.Some? ==> r.value == index + 1
  {
    if responded then Some(index + 1) else None
  }

  /** The page a handler settles on: the rule's new page, or the current one when the rule does nothing. */
  function Moved(next: Option<int>, current: int): int {
    if next.Some? then next.value else current
  }

  /** The media browser's page indices, one per filter, as the workspace holds them. */
  class MediaBrowserPages {
    var imgPageIndex: int
    var svgPageIndex: int

    /** Both lists start on page 0. */
    constructor ()
      ensures imgPageIndex == 0 && svgPageIndex == 0
    {
      imgPageIndex := 0;
      svgPageIndex := 0;
    }

    /** `onPrevPage`: moves the showing list back a page, by the previous-page rule. */
    method OnPrevPage(filter: MediaFilter)
      modifies this
      ensures filter == ImgFilter ==> svgPageIndex == old(svgPageIndex)
      ensures filter == ImgFilter ==> imgPageIndex == Moved(PrevPageIndex(old(imgPageIndex)), old(imgPageIndex))
      ensures filter == SvgFilter ==> imgPageIndex == old(imgPageIndex)
      ensures filter == SvgFilter ==> svgPageIndex == Moved(PrevPageIndex(old(svgPageIndex)), old(svgPageIndex))
    {
      match filter
      case ImgFilter =>
        if imgPageIndex != 0 {
          imgPageIndex := MaxInt(0, imgPageIndex - 1);
        }
      case SvgFilter =>
        if svgPageIndex != 0 {
          svgPageIndex := MaxInt(0, svgPageIndex - 1);
        }
    }

    /** `onNextPage`: moves the showing list on a page when the server returned it. */
    method OnNextPage(filter: MediaFilter, responded: bool)
      modifies this
      ensures filter == ImgFilter ==> svgPageIndex == old(svgPageIndex)
      ensures filter == ImgFilter ==> imgPageIndex == Moved(NextPageIndex(old(imgPageIndex), responded), old(imgPageIndex))
      ensures filter == SvgFilter ==> imgPageIndex == old(imgPageIndex)
      ensures filter == SvgFilter ==> svgPageIndex == Moved(NextPageIndex(old(svgPageIndex), responded), old(svgPageIndex))
    {
      match filter
      case ImgFilter =>
        if responded {
          imgPageIndex := imgPageIndex + 1;
        }
      case SvgFilter =>
        if responded {
          svgPageIndex := svgPageIndex + 1;
        }
    }
  }
}
