/**
  The guide widget: a robot in the corner of the page that tracks which
  section of the page is in view, counts clicks on it, and shows a message
  bubble with either the current section's welcome text or a canned reply.

  The scroll offset and the viewport height are inputs (the browser's
  window.scrollY and window.innerHeight); the timers that hide the bubble
  and end the click animation are events the host delivers.
*/
module GuideRobot {

  datatype Option<T> = None | Some(value: T)

  /** The page sections, in the order they appear on the page. */
  datatype Section = Hero | About | Skills | Projects | Contact

  /** The position of a section in page order. */
  function Rank(s: Section): nat {
    match s
    case Hero => 0
    case About => 1
    case Skills => 2
    case Projects => 3
    case Contact => 4
  }

  // ---------------------------------------------------------------------------
  // Which section is in view
  // ---------------------------------------------------------------------------

  /** The section for a scroll offset, by comparing it with half-viewport
      breakpoints 0.5, 1.5, 2.5 and 3.5 viewport heights, in turn. */
  function SectionAt(scrollY: real, innerHeight: real): Section {
    if scrollY < innerHeight * 0.5 then Hero
    else if scrollY < innerHeight * 1.5 then About
    else if scrollY < innerHeight * 2.5 then Skills
    else if scrollY < innerHeight * 3.5 then Projects
    else Contact
  }

  /** Each section is chosen on exactly one band of scroll offsets. */
  lemma SectionBands(scrollY: real, innerHeight: real)
    requires innerHeight >= 0.0
    ensures SectionAt(scrollY, innerHeight) == Hero <==> scrollY < 0.5 * innerHeight
    ensures SectionAt(scrollY, innerHeight) == About <==> 0.5 * innerHeight <= scrollY < 1.5 * innerHeight
    ensures SectionAt(scrollY, innerHeight) == Skills <==> 1.5 * innerHeight <= scrollY < 2.5 * innerHeight
    ensures SectionAt(scrollY, innerHeight) == Projects <==> 2.5 * innerHeight <= scrollY < 3.5 * innerHeight
    ensures SectionAt(scrollY, innerHeight) == Contact <==> 3.5 * innerHeight <= scrollY
  {
  }

  /** Scrolling further down never selects an earlier section. */
  lemma SectionMonotone(scrollY: real, scrollY': real, innerHeight: real)
    requires innerHeight >= 0.0 && scrollY <= scrollY'
    ensures Rank(SectionAt(scrollY, innerHeight)) <= Rank(SectionAt(scrollY', innerHeight))
  {
    SectionBands(scrollY, innerHeight);
    SectionBands(scrollY', innerHeight);
  }

  /** 0.6 viewport heights down is the about section; 4 heights down is contact. */
  lemma SectionExamples(innerHeight: real)
    requires innerHeight > 0.0
    ensures SectionAt(0.6 * innerHeight, innerHeight) == About
    ensures SectionAt(4.0 * innerHeight, innerHeight) == Contact
  {
  }

  // ---------------------------------------------------------------------------
  // What the bubble says
  // ---------------------------------------------------------------------------

  /** The fixed welcome text of a section. */
  datatype SectionMessage = SectionMessage(title: string, message: string, tip: string)

  function MessageFor(s: Section): SectionMessage {
    match s
    case Hero => SectionMessage(
      "Welcome Aboard! \U{1F680}",
      "I'm RoboGuide! Click me anytime for tips. Let's explore this amazing portfolio together!",
      "Scroll down to discover more!")
    case About => SectionMessage(
      "About Section \U{1F4DA}",
      "Here you'll learn about Kareemulla's journey in Machine Learning and AI. Pretty impressive, right?",
      "Click the robot avatar to see it spin!")
    case Skills => SectionMessage(
      "Tech Arsenal \U{1F4AA}",
      "These are the technologies mastered! Hover over the skill bars to see them in action.",
      "Python and ML skills are top-tier!")
    case Projects => SectionMessage(
      "Projects Showcase \U{1F3AF}",
      "Check out these amazing projects! Each one demonstrates real-world problem-solving.",
      "Click the links to learn more!")
    case Contact => SectionMessage(
      "Let's Connect! \U{1F91D}",
      "Ready to collaborate? These links will take you to GitHub, Kaggle, and email!",
      "Don't be shy, reach out!")
  }

  /** The canned replies to clicks on the robot. */
  const Responses: seq<string> := [
    "Hey there! \U{1F44B} Keep exploring!",
    "You found me! \U{1F389} Click the sections above!",
    "Boop! \U{1F916} I'm here to help!",
    "Nice click! \U{26A1} Let's keep going!",
    "RoboGuide at your service! \U{1F680}",
    "Beep boop! \U{1F4AB} Loving the portfolio?"
  ]

  /** The bubble title once the robot has been clicked. */
  const ClickTitle: string := "RoboGuide Says:"

  /** The reply shown for a click count: one of the canned replies, chosen by
      the count modulo their number. */
  function ClickReply(clickCount: nat): (r: string)
    ensures r in Responses
  {
    Responses[clickCount % |Responses|]
  }

  /** The replies repeat with period 6: the 7th click shows what the 1st did. */
  lemma ClickReplyPeriodic(clickCount: nat)
    ensures ClickReply(clickCount + 6) == ClickReply(clickCount)
    ensures ClickReply(7) == ClickReply(1)
  {
  }

  /** The six canned replies are all different. */
  lemma ResponsesDistinct()
    ensures forall a, b :: 0 <= a < b < |Responses| ==> Responses[a] != Responses[b]
  {
    forall a, b | 0 <= a < b < |Responses| ensures Responses[a] != Responses[b] {
      assert Responses[a][0] != Responses[b][0] || |Responses[a]| != |Responses[b]|;
    }
  }

  /** Six clicks in a row show six different replies. */
  lemma SixClicksShowSixReplies(first: nat)
    ensures forall a: nat, b: nat :: first <= a < b < first + 6 ==> ClickReply(a) != ClickReply(b)
  {
    ResponsesDistinct();
    forall a: nat, b: nat | first <= a < b < first + 6 ensures ClickReply(a) != ClickReply(b) {
      assert a == 6 * (a / 6) + a % 6 && b == 6 * (b / 6) + b % 6;
      assert a % 6 != b % 6;
    }
  }

  /** What the message bubble shows. */
  datatype Bubble = Bubble(title: string, body: string, tip: string)

  /** The bubble, if shown: before any click the section's title and message,
      after a click the click title and the reply for the click count; the tip is
      always the current section's. */
  function BubbleContent(section: Section, clickCount: nat, showMessage: bool): (b: Option<Bubble>)
    ensures b.Some? <==> showMessage
    ensures b.Some? ==> b.value.tip == MessageFor(section).tip
    ensures b.Some? && clickCount == 0 ==>
      b.value.title == MessageFor(section).title && b.value.body == MessageFor(section).message
    ensures b.Some? && clickCount > 0 ==> b.value.title == ClickTitle && b.value.body == ClickReply(clickCount)
  {
    if !showMessage then None
    else
      var m := MessageFor(section);
      Some(Bubble(
        if clickCount > 0 then ClickTitle else m.title,
        if clickCount > 0 then ClickReply(clickCount) else m.message,
        m.tip))
  }

  // ---------------------------------------------------------------------------
  // The widget's state
  // ---------------------------------------------------------------------------

  /** The host timers the widget starts: the bubble auto-hide after a section
      change (5 s) and after a click (8 s), and the end of the click spin (0.6 s). */
  datatype Timer = SectionHide | ClickHide | SpinEnd

  class Robot {
    var currentSection: Section
    var showMessage: bool
    var isClicked: bool
    var clickCount: nat

    /** Mount: the first scroll check picks the section and the section effect
        opens the bubble; no click has happened yet. */
    constructor (scrollY: real, innerHeight: real)
      ensures currentSection == SectionAt(scrollY, innerHeight)
      ensures showMessage && !isClicked && clickCount == 0
    {
      currentSection := SectionAt(scrollY, innerHeight);
      showMessage := true;
      isClicked := false;
      clickCount := 0;
    }

    /** The bubble the widget renders now. */
    function Shown(): Option<Bubble>
      reads this
    {
      BubbleContent(currentSection, clickCount, showMessage)
    }

    /** A scroll event: the section is recomputed, and if it changed the bubble
        opens (setting the section to the value it has changes nothing). */
    method Scroll(scrollY: real, innerHeight: real)
      modifies this
      ensures currentSection == SectionAt(scrollY, innerHeight)
      ensures currentSection != old(currentSection) ==> showMessage
      ensures currentSection == old(currentSection) ==> showMessage == old(showMessage)
      ensures isClicked == old(isClicked) && clickCount == old(clickCount)
    {
      var section := SectionAt(scrollY, innerHeight);
      if section != currentSection {
        currentSection := section;
        showMessage := true;
      }
    }

    /** A click on the robot: it spins, the bubble opens and the count goes up by one. */
    method Click()
      modifies this
      ensures clickCount == old(clickCount) + 1
      ensures showMessage && isClicked
      ensures currentSection == old(currentSection)
      ensures Shown() == Some(Bubble(ClickTitle, ClickReply(clickCount), MessageFor(currentSection).tip))
    {
      isClicked := true;
      showMessage := true;
      clickCount := clickCount + 1;
    }

    /** The close button: hides the bubble and nothing else. */
    method Close()
      modifies this`showMessage
      ensures !showMessage && Shown() == None
    {
      showMessage := false;
    }

    /** A host timer fires: the two auto-hide timers close the bubble, the spin
        timer ends the click animation. */
    method TimerFires(t: Timer)
      modifies this
      ensures t == SpinEnd ==> !isClicked && showMessage == old(showMessage)
      ensures t != SpinEnd ==> !showMessage && isClicked == old(isClicked)
      ensures currentSection == old(currentSection) && clickCount == old(clickCount)
    {
      if t == SpinEnd {
        isClicked := false;
      } else {
        showMessage := false;
      }
    }
  }
}
