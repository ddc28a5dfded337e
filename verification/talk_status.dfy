/** The talk-status badge of one client: which icon is drawn, and which
    avatar URL is read out of the myTeamSpeak avatar property. */
module TalkStatus {
  import opened Wrappers
  import opened Entities
  import opened Strings

  datatype Icon =
    | MutedHardwareOutput
    | InputHardware
    | OutputMuted
    | InputMuted
    | Talking
    | NotTalking
    | Blank  // the empty `<svg>` drawn next to an avatar

  /** Reference table: the condition under which each icon is the one drawn,
      stated separately per icon rather than as a chain. */
  predicate Shows(icon: Icon, cl: Client, showTsAvatar: bool) {
    var p := cl.properties;
    var hardwareOn := p.outputHardware && p.inputHardware;
    var quiet := hardwareOn && !p.outputMuted && !p.inputMuted;
    match icon
    case MutedHardwareOutput => !p.outputHardware
    case InputHardware => p.outputHardware && !p.inputHardware
    case OutputMuted => hardwareOn && p.outputMuted
    case InputMuted => hardwareOn && !p.outputMuted && p.inputMuted
    case Talking => quiet && cl.talkStatus == 1 && !showTsAvatar
    case NotTalking => quiet && cl.talkStatus != 1 && !showTsAvatar
    case Blank => quiet && showTsAvatar
  }

  /** The conditional chain choosing the icon. */
  function ChooseIcon(cl: Client, showTsAvatar: bool): (r: Icon)
    ensures Shows(r, cl, showTsAvatar)
    ensures !cl.properties.outputHardware ==> r == MutedHardwareOutput
    ensures cl.properties.outputHardware && !cl.properties.inputHardware ==> r == InputHardware
    ensures cl.properties.outputHardware && cl.properties.inputHardware && cl.properties.outputMuted ==> r == OutputMuted
    ensures r == Talking ==> cl.talkStatus == 1 && !showTsAvatar
  {
    var p := cl.properties;
    if !p.outputHardware then MutedHardwareOutput
    else if !p.inputHardware then InputHardware
    else if p.outputMuted then OutputMuted
    else if p.inputMuted then InputMuted
    else if cl.talkStatus == 1 && !showTsAvatar then Talking
    else if !showTsAvatar then NotTalking
    else Blank
  }

  /** Exactly one icon's condition holds for every input, and it is the chosen one. */
  lemma ExactlyOneIcon(cl: Client, showTsAvatar: bool)
    ensures forall icon :: Shows(icon, cl, showTsAvatar) <==> icon == ChooseIcon(cl, showTsAvatar)
  {
  }

  /** `getTeamSpeakAvatarUrl` as written: the piece after the first "2,"
      (up to the next "2,"), or else the second comma-separated field of the
      first ";"-segment; None stands for `undefined`. An empty piece is kept,
      since `??` only falls back on `undefined`. */
  function AvatarUrl(avatar: string): (r: Option<string>)
    ensures IndexOf(avatar, "2,").Some? ==> r.Some? && IndexOf(r.value, "2,").None?
    ensures IndexOf(avatar, "2,").None? ==> (r.Some? <==> IndexOf(Split(avatar, ";")[0], ",").Some?)
  {
    var byMarker := Split(avatar, "2,");
    if |byMarker| >= 2 then
      SplitPiecesFree(avatar, "2,");
      Some(byMarker[1])
    else
      var fields := Split(Split(avatar, ";")[0], ",");
      if |fields| >= 2 then Some(fields[1]) else None
  }

  /** With a "2," present, the URL runs from behind the first "2," to the next "2," or the end. */
  lemma AvatarUrlWithMarker(avatar: string, i: nat)
    requires IndexOf(avatar, "2,") == Some(i)
    ensures AvatarUrl(avatar) == Some(PieceAt(avatar, "2,", i + 2))
    ensures IndexOf(AvatarUrl(avatar).value, "2,").None?
  {
    SplitSecond(avatar, "2,", i);
    SplitPiecesFree(avatar, "2,");
  }

  /** Without a "2,", the URL is the second comma field of the first ";"-segment, if that segment has a comma. */
  lemma AvatarUrlWithoutMarker(avatar: string)
    requires IndexOf(avatar, "2,").None?
    ensures var segment := PieceAt(avatar, ";", 0);
      AvatarUrl(avatar) ==
        match IndexOf(segment, ",")
        case None => None
        case Some(j) => Some(PieceAt(segment, ",", j + 1))
  {
    var segment := PieceAt(avatar, ";", 0);
    SplitHead(avatar, ";");
    match IndexOf(segment, ",")
    case None =>
    case Some(j) =>
      SplitSecond(segment, ",", j);
  }

  /** The evidently intended extraction: the "2," entry's URL ends at the
      next ";", where the next entry of the property begins. */
  function IntendedAvatarUrl(avatar: string): (r: Option<string>)
    ensures r.Some? ==> IndexOf(r.value, ";").None?
    ensures r.None? <==> AvatarUrl(avatar).None?
    ensures r.Some? ==> r.value == PieceAt(AvatarUrl(avatar).value, ";", 0)
    ensures r.Some? ==> r.value <= AvatarUrl(avatar).value
    ensures AvatarUrl(avatar).Some? && IndexOf(AvatarUrl(avatar).value, ";").None? ==> r == AvatarUrl(avatar)
  {
    match AvatarUrl(avatar)
    case None => None
    case Some(url) =>
      SplitPiecesFree(url, ";");
      SplitHead(url, ";");
      Some(Split(url, ";")[0])
  }

  /** For every property whose first "2," is the marker of the default
      avatar and whose URL is followed by ";" and further entries without a
      "2,", the URL read as written carries those entries along, while the
      intended reading returns exactly the URL. */
  lemma AvatarUrlRunsPastEntry(before: string, url: string, later: string)
    requires IndexOf(before + "2,", "2,") == Some(|before|)
    requires IndexOf(url + ";" + later, "2,").None?
    requires IndexOf(url, ";").None?
    ensures AvatarUrl(before + "2," + url + ";" + later) == Some(url + ";" + later)
    ensures IntendedAvatarUrl(before + "2," + url + ";" + later) == Some(url)
  {
    var rest := url + ";" + later;
    MarkerThenRest(before, rest);
    assert before + "2," + url + ";" + later == before + "2," + rest;
    FirstSegment(url, later);
  }

  /** When the first "2," closes `before` and `rest` holds no "2,", the URL read as written is all of `rest`. */
  lemma MarkerThenRest(before: string, rest: string)
    requires IndexOf(before + "2,", "2,") == Some(|before|)
    requires IndexOf(rest, "2,").None?
    ensures AvatarUrl(before + "2," + rest) == Some(rest)
  {
    var head := before + "2,";
    var avatar := head + rest;
    OccursInPrefix(head, rest, "2,", |before|);
    forall j: nat | j < |before|
      ensures !OccursAt(avatar, "2,", j)
    {
      OccursInPrefix(head, rest, "2,", j);
    }
    assert IndexOf(avatar, "2,") == Some(|before|);
    forall j: nat | |head| <= j
      ensures !OccursAt(avatar, "2,", j)
    {
      OccursInSuffix(head, rest, "2,", j - |head|);
    }
    assert IndexFrom(avatar, "2,", |head|).None?;
    AvatarUrlWithMarker(avatar, |before|);
    assert |before| + 2 == |head|;
    assert PieceAt(avatar, "2,", |head|) == avatar[|head|..|avatar|];
    assert avatar[|head|..|avatar|] == rest;
  }

  /** The first ";"-piece of `url + ";" + later` is `url` when `url` has no ";". */
  lemma FirstSegment(url: string, later: string)
    requires IndexOf(url, ";").None?
    ensures Split(url + ";" + later, ";")[0] == url
  {
    var tail := ";" + later;
    var rest := url + tail;
    assert url + ";" + later == rest;
    OccursInSuffix(url, tail, ";", 0);
    forall j: nat | j < |url|
      ensures !OccursAt(rest, ";", j)
    {
      OccursInPrefix(url, tail, ";", j);
    }
    assert IndexFrom(rest, ";", 0) == Some(|url|);
    SplitHead(rest, ";");
    assert rest[..|url|] == url;
  }

  /** The format's own example shape: the piece after "2," drags the following
      entries along, while the intended reading stops at ";". */
  lemma AvatarUrlKeepsLaterEntries()
    ensures AvatarUrl("1,a;2,b;4,c") == Some("b;4,c")
    ensures IntendedAvatarUrl("1,a;2,b;4,c") == Some("b")
  {
    var s := "1,a;2,b;4,c";
    Mismatch(s, "2,", 0, 0);
    Mismatch(s, "2,", 1, 0);
    Mismatch(s, "2,", 2, 0);
    Mismatch(s, "2,", 3, 0);
    assert s[4..6] == "2,";
    assert IndexFrom(s, "2,", 0) == Some(4);
    Mismatch(s, "2,", 6, 0);
    Mismatch(s, "2,", 7, 0);
    Mismatch(s, "2,", 8, 0);
    Mismatch(s, "2,", 9, 0);
    assert IndexFrom(s, "2,", 6).None?;
    AvatarUrlWithMarker(s, 4);
    var url := "b;4,c";
    assert s[6..] == url;
    assert AvatarUrl(s) == Some(url);
    Mismatch(url, ";", 0, 0);
    assert url[1..2] == ";";
    assert IndexFrom(url, ";", 0) == Some(1);
    SplitHead(url, ";");
    assert Split(url, ";")[0] == "b";
  }
}
