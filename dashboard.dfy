/**
 The dashboard page (`app/dashboard/page.tsx`): the camera-card tap state
 machine over the set of expanded cards and the one focused card, the
 presence toggles, the video-state counter, the derived user list and the
 camera list with its green-screen flags.
 */
module Dashboard {
  import opened Wrappers
  import opened JsNumber
  import opened CameraFeed

  type CameraId = string

  // ---------------------------------------------------------------------
  // Camera-card tap state machine

  /** The part of the dashboard state the card taps act on. */
  datatype TapState = TapState(expanded: set<CameraId>, focused: Option<CameraId>)

  /** An empty set of expanded cards and no focus, as the page starts. */
  const InitialTapState: TapState := TapState({}, None)

  /** What one card sees of the tap state: its `isExpanded` and `isFocused` props. */
  datatype CardView = CardView(isExpanded: bool, isFocused: bool)

  function ViewOf(s: TapState, id: CameraId): CardView
  {
    CardView(id in s.expanded, s.focused == Some(id))
  }

  /** `handleCameraTap(id, heightVariant)` as a function of the state before the tap.
      Every tap changes the tapped card; no other card's expansion changes; and
      focus either stays where it was, moves to the tapped card or is cleared. */
  function Tap(s: TapState, id: CameraId, heightVariant: HeightVariant): (r: TapState)
    ensures ViewOf(r, id) != ViewOf(s, id)
    ensures r.expanded - {id} == s.expanded - {id}
    ensures r.focused == None || r.focused == Some(id) || r.focused == s.focused
    ensures heightVariant == Short && ViewOf(s, id) == CardView(false, false) ==> r.focused == None
  {
    var isExpanded := id in s.expanded;
    var isFocused := s.focused == Some(id);
    match heightVariant
    case Short =>
      if !isExpanded && !isFocused then TapState(s.expanded + {id}, None)
      else if isExpanded && !isFocused then TapState(s.expanded, Some(id))
      else TapState(s.expanded - {id}, None)
    case Full =>
      if !isExpanded && !isFocused then TapState(s.expanded, Some(id))
      else if isFocused then TapState(s.expanded + {id}, None)
      else TapState(s.expanded - {id}, s.focused)
  }

  /** The card views a card of the given variant can be in: a focused short
      card is expanded, a focused full card is not. */
  predicate CardReachable(view: CardView, heightVariant: HeightVariant)
  {
    match heightVariant
    case Short => view.isFocused ==> view.isExpanded
    case Full => view.isFocused ==> !view.isExpanded
  }

  /** The height class the tile of a card gets for a given view. */
  function HeightOf(view: CardView, heightVariant: HeightVariant): HeightClass
  {
    GetHeightClass(view.isFocused, view.isExpanded, heightVariant)
  }

  /** A tap keeps every card's view reachable: the tapped card's and any other's. */
  lemma TapKeepsCardsReachable(s: TapState, id: CameraId, v: HeightVariant, other: CameraId, w: HeightVariant)
    requires CardReachable(ViewOf(s, id), v)
    requires other != id ==> CardReachable(ViewOf(s, other), w)
    requires other == id ==> w == v
    ensures CardReachable(ViewOf(Tap(s, id, v), other), w)
  {
  }

  /** Three taps on the same card, with no other tap in between, bring the card
      back to its view and the expanded set back to what it was; when no other
      card held the focus, the whole tap state is back. */
  lemma TapCycleReturns(s: TapState, id: CameraId, v: HeightVariant)
    requires CardReachable(ViewOf(s, id), v)
    ensures ViewOf(Tap(Tap(Tap(s, id, v), id, v), id, v), id) == ViewOf(s, id)
    ensures Tap(Tap(Tap(s, id, v), id, v), id, v).expanded == s.expanded
    ensures s.focused == None || s.focused == Some(id) ==> Tap(Tap(Tap(s, id, v), id, v), id, v) == s
  {
  }

  /** Along a card's tap cycle its tile gets three different height class names. */
  lemma TapCycleHeightsDistinct(s: TapState, id: CameraId, v: HeightVariant)
    requires CardReachable(ViewOf(s, id), v)
    ensures
      var h0 := HeightOf(ViewOf(s, id), v);
      var h1 := HeightOf(ViewOf(Tap(s, id, v), id), v);
      var h2 := HeightOf(ViewOf(Tap(Tap(s, id, v), id, v), id), v);
      Css(h0) != Css(h1) && Css(h1) != Css(h2) && Css(h0) != Css(h2)
  {
  }

  // ---------------------------------------------------------------------
  // The camera list

  /** One entry of the page's camera list (the props that matter here). */
  datatype Camera = Camera(id: CameraId, name: string, heightVariant: HeightVariant)

  const Cameras: seq<Camera> := [
    Camera("1", "ADC6-10-M022", Full),
    Camera("2", "BDH4-15-S081", Full),
    Camera("3", "CDK2-08-X104", Short),
    Camera("4", "DFL7-22-Y045", Short),
    Camera("5", "EGM9-31-Z067", Full),
    Camera("6", "FHN3-17-A129", Short),
    Camera("7", "GJP5-26-B088", Short),
    Camera("8", "HKQ8-13-C156", Full),
    Camera("9", "ILR1-29-D093", Short)
  ]

  /** The `showGray` prop of each camera in list order; an entry without a
      `showGray` field passes `undefined`, which the tile reads as false. */
  function ShowGray(videoState: int): (flags: seq<bool>)
    ensures |flags| == |Cameras|
    ensures forall i :: 0 <= i < |flags| ==>
              (flags[i] <==>
                 (videoState == 2 && Cameras[i].id in {"2", "3"}) || (videoState == 4 && Cameras[i].id == "5"))
  {
    [false, videoState == 2, videoState == 2, false, videoState == 4, false, false, false, false]
  }

  predicate DistinctIds(cams: seq<Camera>)
  {
    forall i, j :: 0 <= i < |cams| && 0 <= j < |cams| && cams[i].id == cams[j].id ==> i == j
  }

  function Ids(cams: seq<Camera>): set<CameraId>
  {
    set i | 0 <= i < |cams| :: cams[i].id
  }

  /** The camera ids are the decimal numerals 1 to 9, so they are distinct. */
  lemma CameraIds()
    ensures forall i :: 0 <= i < |Cameras| ==> Cameras[i].id == DecimalString(i + 1)
    ensures DistinctIds(Cameras)
  {
  }

  /** A tap as a tile's `onTap` makes it: a listed id with that card's own variant. */
  predicate IsListedCard(id: CameraId, heightVariant: HeightVariant, cams: seq<Camera>)
  {
    exists k :: 0 <= k < |cams| && cams[k].id == id && cams[k].heightVariant == heightVariant
  }

  /** Which recording each listed camera plays: camera `n` takes entry `n % 9` of
      the list, so only camera 5 (the fifth entry) gets the black recording, in
      video states 1 and 2, and only its video starts without autoplay. */
  lemma DashboardVideoSources(i: nat, videoState: int)
    requires i < |Cameras|
    ensures GetVideoSource(Cameras[i].id, videoState) == VideoList(videoState)[(i + 1) % 9]
    ensures !Autoplay(Cameras[i].id, videoState) <==> (videoState == 1 || videoState == 2) && i == 4
  {
    assert (i + 1) % 9 == 5 <==> i == 4;
    assert ParseInt(Cameras[i].id) == Int(i + 1) by {
      CameraIds();
      ParseIntDecimal(i + 1);
    }
  }

  /** The reachability invariant of the tap machine over a camera list: every
      listed card's view is reachable for its variant, and only listed cards
      are expanded or focused. */
  ghost predicate FocusConsistent(s: TapState, cams: seq<Camera>)
  {
    && (forall i :: 0 <= i < |cams| ==> CardReachable(ViewOf(s, cams[i].id), cams[i].heightVariant))
    && s.expanded <= Ids(cams)
    && (s.focused.Some? ==> s.focused.value in Ids(cams))
  }

  /** Tapping a listed card with its own variant, as each tile's `onTap` does,
      keeps the invariant. */
  lemma TapPreservesFocusConsistent(s: TapState, cams: seq<Camera>, k: nat)
    requires DistinctIds(cams) && FocusConsistent(s, cams) && k < |cams|
    ensures FocusConsistent(Tap(s, cams[k].id, cams[k].heightVariant), cams)
  {
  }

  /** The tap state after the given taps, each the index of a tapped card. */
  function Run(s: TapState, cams: seq<Camera>, taps: seq<nat>): TapState
    requires forall t :: 0 <= t < |taps| ==> taps[t] < |cams|
    decreases |taps|
  {
    if taps == [] then s
    else Run(Tap(s, cams[taps[0]].id, cams[taps[0]].heightVariant), cams, taps[1..])
  }

  lemma {:induction false} RunPreservesFocusConsistent(s: TapState, cams: seq<Camera>, taps: seq<nat>)
    requires DistinctIds(cams) && FocusConsistent(s, cams)
    requires forall t :: 0 <= t < |taps| ==> taps[t] < |cams|
    ensures FocusConsistent(Run(s, cams, taps), cams)
    decreases |taps|
  {
    if taps != [] {
      TapPreservesFocusConsistent(s, cams, taps[0]);
      RunPreservesFocusConsistent(Tap(s, cams[taps[0]].id, cams[taps[0]].heightVariant), cams, taps[1..]);
    }
  }

  /** From the initial state, whatever cards are tapped: a focused short card is
      expanded, a focused full card is not, and at most one tile is at `h-64`. */
  lemma ReachableDashboard(taps: seq<nat>)
    requires forall t :: 0 <= t < |taps| ==> taps[t] < |Cameras|
    ensures var s := Run(InitialTapState, Cameras, taps);
      && (forall i :: 0 <= i < |Cameras| && s.focused == Some(Cameras[i].id) ==>
            (Cameras[i].heightVariant == Short <==> Cameras[i].id in s.expanded))
      && (forall i, j ::
            (0 <= i < |Cameras| && 0 <= j < |Cameras| &&
             HeightOf(ViewOf(s, Cameras[i].id), Cameras[i].heightVariant) == H64 &&
             HeightOf(ViewOf(s, Cameras[j].id), Cameras[j].heightVariant) == H64) ==> i == j)
  {
    CameraIds();
    RunPreservesFocusConsistent(InitialTapState, Cameras, taps);
  }

  // ---------------------------------------------------------------------
  // Users, presence and video state

  datatype User = Adam | Carl

  /** `handleUserTap`'s flip of the active user. */
  function OtherUser(u: User): (o: User)
    ensures o != u
  {
    match u
    case Adam => Carl
    case Carl => Adam
  }

  function DisplayName(u: User): string
  {
    match u
    case Adam => "Adam"
    case Carl => "Carl"
  }

  function Avatar(u: User): string
  {
    match u
    case Adam => "/user.png"
    case Carl => "/carl-icon.png"
  }

  /** One row of the presence list. */
  datatype UserEntry = UserEntry(name: string, role: string, isOnline: bool, avatar: string)

  /** `getUsersConfig`: the active user first, as "(You)" and online; then the
      other user, online exactly when `otherUserOnline`; Carl is the admin. */
  function UsersConfig(activeUser: User, otherUserOnline: bool): (users: seq<UserEntry>)
    ensures |users| == 2
    ensures users[0].role == "(You)" && users[0].isOnline
    ensures users[1].isOnline == otherUserOnline
    ensures users[0].name == DisplayName(activeUser) && users[0].avatar == Avatar(activeUser)
    ensures users[1].name == DisplayName(OtherUser(activeUser)) && users[1].avatar == Avatar(OtherUser(activeUser))
    ensures users[1].role == (if activeUser == Adam then "(Admin)" else "(Guest)")
  {
    if activeUser == Adam then
      [UserEntry("Adam", "(You)", true, "/user.png"),
       UserEntry("Carl", "(Admin)", otherUserOnline, "/carl-icon.png")]
    else
      [UserEntry("Carl", "(You)", true, "/carl-icon.png"),
       UserEntry("Adam", "(Guest)", otherUserOnline, "/user.png")]
  }

  /** Tapping a user row twice restores the active user; one tap swaps the
      people shown in the two rows and leaves the online column as it was. */
  lemma UserTapSwapsRows(u: User, otherUserOnline: bool)
    ensures OtherUser(OtherUser(u)) == u
    ensures UsersConfig(OtherUser(u), otherUserOnline)[0].name == UsersConfig(u, otherUserOnline)[1].name
    ensures UsersConfig(OtherUser(u), otherUserOnline)[1].name == UsersConfig(u, otherUserOnline)[0].name
    ensures UsersConfig(OtherUser(u), otherUserOnline)[1].isOnline == UsersConfig(u, otherUserOnline)[1].isOnline
  {
  }

  /** `handleVideoStateToggle`'s update `(prevState % 4) + 1`: from any
      non-negative state it lands in 1..4, and it cycles 1, 2, 3, 4, 1. */
  function NextVideoState(v: int): (r: int)
    ensures v >= 0 ==> 1 <= r <= 4
    ensures 1 <= v < 4 ==> r == v + 1
    ensures v == 4 ==> r == 1
  {
    Rem(v, 4) + 1
  }

  lemma FourTogglesRestore(v: int)
    requires 1 <= v <= 4
    ensures NextVideoState(NextVideoState(NextVideoState(NextVideoState(v)))) == v
  {
  }

  // ---------------------------------------------------------------------
  // The page's component state

  /** The page's state hooks that the taps and toggles update. */
  class DashboardState {
    var activeUser: User
    var otherUserOnline: bool
    var expandedCameras: set<CameraId>
    var focusedCamera: Option<CameraId>
    var videoState: int

    function CameraState(): TapState
      reads this
    {
      TapState(expandedCameras, focusedCamera)
    }

    ghost predicate Valid()
      reads this
    {
      1 <= videoState <= 4 && FocusConsistent(CameraState(), Cameras)
    }

    constructor ()
      ensures Valid()
      ensures activeUser == Adam && !otherUserOnline && videoState == 1
      ensures CameraState() == InitialTapState
    {
      activeUser := Adam;
      otherUserOnline := false;
      expandedCameras := {};
      focusedCamera := None;
      videoState := 1;
    }

    method HandleUserTap()
      requires Valid()
      modifies this
      ensures Valid()
      ensures activeUser == OtherUser(old(activeUser))
      ensures otherUserOnline == old(otherUserOnline) && videoState == old(videoState)
      ensures CameraState() == old(CameraState())
    {
      activeUser := if activeUser == Adam then Carl else Adam;
    }

    method HandlePlusIconTap()
      requires Valid()
      modifies this
      ensures Valid()
      ensures otherUserOnline == !old(otherUserOnline)
      ensures activeUser == old(activeUser) && videoState == old(videoState)
      ensures CameraState() == old(CameraState())
    {
      otherUserOnline := !otherUserOnline;
    }

    method HandleVideoStateToggle()
      requires Valid()
      modifies this
      ensures Valid()
      ensures videoState == NextVideoState(old(videoState))
      ensures activeUser == old(activeUser) && otherUserOnline == old(otherUserOnline)
      ensures CameraState() == old(CameraState())
    {
      videoState := Rem(videoState, 4) + 1;
    }

    /** `handleCameraTap`, branch for branch. The invariant is kept when the
        tap comes from a listed card with that card's own variant. */
    method HandleCameraTap(cameraId: CameraId, heightVariant: HeightVariant)
      requires Valid()
      modifies this
      ensures CameraState() == Tap(old(CameraState()), cameraId, heightVariant)
      ensures activeUser == old(activeUser) && otherUserOnline == old(otherUserOnline)
      ensures videoState == old(videoState)
      ensures IsListedCard(cameraId, heightVariant, Cameras) ==> Valid()
    {
      ghost var before := CameraState();
      var isExpanded := cameraId in expandedCameras;
      var isFocused := focusedCamera == Some(cameraId);
      if heightVariant == Short && !isExpanded && !isFocused {
        expandedCameras := expandedCameras + {cameraId};
        focusedCamera := None;
      } else if heightVariant == Short && isExpanded && !isFocused {
        focusedCamera := Some(cameraId);
      } else if heightVariant == Short && isFocused {
        focusedCamera := None;
        expandedCameras := expandedCameras - {cameraId};
      } else if heightVariant == Full && !isExpanded && !isFocused {
        focusedCamera := Some(cameraId);
      } else if heightVariant == Full && isFocused {
        focusedCamera := None;
        expandedCameras := expandedCameras + {cameraId};
      } else if heightVariant == Full && isExpanded && !isFocused {
        expandedCameras := expandedCameras - {cameraId};
      }
      if k :| 0 <= k < |Cameras| && Cameras[k].id == cameraId && Cameras[k].heightVariant == heightVariant {
        CameraIds();
        TapPreservesFocusConsistent(before, Cameras, k);
      }
    }
  }
}
