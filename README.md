# Portfolio scene: particle network and guide robot

This project models two interactive parts of a personal portfolio web page.

- **The particle network** is the `NetworkParticles` component. It is used
  only by the `Scene` component in components/Scene.tsx (line 536, with
  `count={130}` and `connectionDistance={5.0}`). App.tsx does not mount
  `Scene`; its own background is `GalaxyScene`. The component holds a fixed set of particles. Each animation frame it
  moves every particle by its velocity and wraps x and y back into
  [-15, 15]. It then copies the positions into a point buffer. Finally it scans
  every pair i < j, and writes a line segment for each pair closer than the
  connection distance into fixed-size line buffers. A line takes six position
  slots and six colour slots. The buffers hold at most 15 lines per particle.
  The colour depends on the parity of i: cyan for even i, purple for odd i.
  The line geometry's draw range is set to the number of line vertices
  written.
- **The guide robot** is a corner widget. It maps the scroll offset to one of
  five page sections, using breakpoints at 0.5, 1.5, 2.5 and 3.5 viewport
  heights. The message bubble opens when the section changes and when the
  robot is clicked. A click also starts a spin and increments a click count.
  The close button and auto-hide timers close the bubble. The bubble shows
  the section's welcome text until the first click. After that it shows a
  canned reply chosen by the click count modulo 6.

`particle_network.dfy` (module `ParticleNetwork`) models the particle network
imperatively.

- A class holds the component's state: the particle records in an array, the
  three render buffers as arrays allocated once at mount, and the draw count.
- Each step of the frame callback is a method with loops, proved against
  specification functions.
- `Positions` is the buffer the points must hold.
- `Recorded` is the specification of the line buffers: the close pairs in
  loop order, `Qualifying`, cut off at the capacity by `Take`.
- Lemmas about `Recorded` state:
  - a pair is connected exactly when it is closer than the distance;
  - no pair appears twice or reversed;
  - the capacity is never exceeded;
  - the overflow is dropped in scan order.

`guide_robot.dfy` (module `GuideRobot`) models the widget as a class whose
fields are four of its five pieces of React state (`position` is left out). Every event handler is a method.
The section rule and the bubble content are functions, with lemmas about
them.

Behaviour of the code worth noting:

- Pairs at exactly the connection distance are not connected, because the
  test is a strict `<` on squared distances.
- Every close pair gets exactly one line only while the close pairs fit in
  the buffers (`RecordedAllWhenRoom`). Past the capacity the extra pairs
  are dropped (`RecordedStopsAtCapacity`).
- Building the lines writes the line buffers and the draw range and leaves
  the particle positions untouched.
- The capacity is 15 lines per particle, as the code computes. The comment
  next to it speaks of 10.
- A scroll offset exactly on a breakpoint already selects the later section,
  because each test is `scrollY < h * b`.
- The page's root container has the height of the viewport and hides overflow
  (App.tsx:373). The content scrolls inside an inner `overflow-y-auto` element
  (App.tsx:386). The robot's handler reads the window's scroll offset
  (components/GuideRobot.tsx:47, 63), so on this page that offset probably
  stays 0 and the section stays hero. This is read off the code and not
  confirmed. The model takes the offset as an input either way.

## Model

| member | source | states |
|---|---|---|
| ParticleNetwork.Wrap | components/Scene.tsx:50-54 | the wrapped coordinate lies in [-15, 15]; it is unchanged inside the bounds, and jumps to -15 above 15 and to 15 below -15 |
| ParticleNetwork.Moved | components/Scene.tsx:45-54 | after a frame x and y lie in [-15, 15] and equal position plus velocity when that stays in bounds; z is always position plus velocity; velocities do not change |
| ParticleNetwork.Positions | components/Scene.tsx:56-59 | the point buffer has three slots per particle, and slots 3k, 3k+1, 3k+2 hold particle k's x, y, z |
| ParticleNetwork.PositionsFromSlots | components/Scene.tsx:56-59 | a buffer whose slots 3k..3k+2 hold particle k's coordinates for every k is exactly the point buffer of those particles |
| ParticleNetwork.RowPrefixSound | components/Scene.tsx:74-80 | every pair the inner loop collects up to j is (i, j') with i < j' < j and closer than the distance |
| ParticleNetwork.RowPrefixComplete | components/Scene.tsx:74-80 | every close pair (i, j') with i < j' < j is collected by the inner loop up to j |
| ParticleNetwork.RowPrefixOrdered | components/Scene.tsx:74 | the inner loop visits its pairs in strictly increasing j |
| ParticleNetwork.RowPrefixGrows | components/Scene.tsx:74 | the pairs collected up to j are a prefix of those collected up to any later j' |
| ParticleNetwork.OrderedConcat | components/Scene.tsx:73-74 | joining two ordered runs of pairs, the first wholly below the second, gives an ordered run |
| ParticleNetwork.RowsBeforeSound | components/Scene.tsx:73-80 | every pair collected by the rows before i has lower index below i and is a close pair i' < j' < n |
| ParticleNetwork.RowsBeforeComplete | components/Scene.tsx:73-80 | every close pair i' < j' < n with i' < i is collected by the rows before i |
| ParticleNetwork.RowsBeforeOrdered | components/Scene.tsx:73-74 | the rows before i list their pairs in strictly increasing lexicographic order |
| ParticleNetwork.QualifyingIff | components/Scene.tsx:73-80 | a pair (i, j) is among the close pairs exactly when i < j < n and the squared distance is below the squared connection distance; hence no self-edges and no reversed pairs |
| ParticleNetwork.QualifyingOrdered | components/Scene.tsx:73-74 | the close pairs come in lexicographic order, so no pair appears twice |
| ParticleNetwork.TakeOfLongPrefix | components/Scene.tsx:81 | once a prefix of the scan already holds m pairs, scanning further does not change the first m |
| ParticleNetwork.RecordedWithinCapacity | components/Scene.tsx:34-36 | the recorded lines number at most the capacity, are the first close pairs in scan order, are ordered, and each is a close pair |
| ParticleNetwork.RecordedAllWhenRoom | components/Scene.tsx:73-102 | when the close pairs fit in the buffers, every close pair is recorded and none twice |
| ParticleNetwork.RecordedStopsAtCapacity | components/Scene.tsx:80-81 | when more pairs qualify than fit, exactly the capacity is recorded and every dropped pair comes after every recorded one |
| ParticleNetwork.TakeStep | components/Scene.tsx:81-102 | appending a pair to the scan adds it to the recorded lines while there is room, and changes nothing once they are full |
| ParticleNetwork.RowStep | components/Scene.tsx:80-102 | one inner-loop step appends pair (i, j) to the recorded lines exactly when it is close and there is room, and otherwise leaves them as they were |
| ParticleNetwork.CappedRow | components/Scene.tsx:81 | breaking out of row i at capacity loses nothing: the rest of the row would record no further line |
| ParticleNetwork.EdgesWrittenExtend | components/Scene.tsx:84-102 | writing line k = (number of lines so far) while leaving earlier slots alone extends the lines the buffers hold by that one edge |
| ParticleNetwork.TwoParticleScenario | components/Scene.tsx:73-80 | particles at (0,0,0) and (3,0,0) are connected at distance 4.5 and not at distance 2 |
| ParticleNetwork.NetworkParticles.constructor | components/Scene.tsx:7-36 | mount allocates the particle array and three zero-filled buffers (3 slots per particle, 6 per line, 15 lines per particle), and the draw count covers the whole line buffer |
| ParticleNetwork.NetworkParticles.MoveParticles | components/Scene.tsx:42-60 | every particle becomes its moved-and-wrapped self and the point buffer holds exactly the new positions |
| ParticleNetwork.NetworkParticles.WriteEdge | components/Scene.tsx:84-100 | line k gets both endpoints' positions and the parity colour of i at both endpoints; no other slot changes |
| ParticleNetwork.NetworkParticles.RecordEdge | components/Scene.tsx:84-102 | writing the next line extends the buffers' recorded lines by (i, j) and leaves every later slot alone |
| ParticleNetwork.NetworkParticles.IsClose | components/Scene.tsx:75-80 | the squared-distance test on the point buffer decides exactly whether the pair is close |
| ParticleNetwork.NetworkParticles.VisitPair | components/Scene.tsx:75-102 | one inner-loop step: reports full (so the loop breaks) only when the pair is close and the buffers are full, and then the whole row adds nothing; otherwise the recorded lines follow the scan one pair further |
| ParticleNetwork.NetworkParticles.ScanRow | components/Scene.tsx:74-104 | after row i the buffers hold exactly the capped close pairs of rows 0..i, and slots past them are unchanged |
| ParticleNetwork.NetworkParticles.BuildLines | components/Scene.tsx:65-107 | the buffers hold the first capacity-many close pairs in scan order, at most the capacity, the draw count is two vertices per line, and slots past the written lines keep their old contents |
| ParticleNetwork.NetworkParticles.Frame | components/Scene.tsx:38-111 | particles move only when the point geometry exists; lines are rebuilt from this frame's new positions only when both geometries exist; otherwise the buffers and draw count are unchanged |
| GuideRobot.SectionBands | components/GuideRobot.tsx:50-60 | each section is chosen exactly on its band of scroll offsets: below 0.5h hero, [0.5h, 1.5h) about, [1.5h, 2.5h) skills, [2.5h, 3.5h) projects, from 3.5h contact |
| GuideRobot.SectionMonotone | components/GuideRobot.tsx:50-60 | scrolling further down never selects an earlier section |
| GuideRobot.SectionExamples | components/GuideRobot.tsx:50-60 | 0.6 viewport heights down is about; 4 viewport heights down is contact |
| GuideRobot.ClickReply | components/GuideRobot.tsx:96-106 | the reply for a click count is always one of the six canned replies |
| GuideRobot.ClickReplyPeriodic | components/GuideRobot.tsx:105 | the replies repeat with period six; count 7 shows what count 1 does |
| GuideRobot.ResponsesDistinct | components/GuideRobot.tsx:97-104 | the six canned replies are pairwise different |
| GuideRobot.SixClicksShowSixReplies | components/GuideRobot.tsx:96-105 | any six consecutive click counts show six different replies |
| GuideRobot.BubbleContent | components/GuideRobot.tsx:204-210 | a bubble is shown exactly when the message is open; its tip is the section's; before any click it shows the section's title and message, after one the click title and the reply for the click count |
| GuideRobot.Robot.constructor | components/GuideRobot.tsx:64-71 | mount selects the section for the initial scroll offset, opens the bubble, and starts with no click and no spin |
| GuideRobot.Robot.Scroll | components/GuideRobot.tsx:46-61 | the section becomes the one for the new offset; the bubble opens if the section changed, and nothing else changes |
| GuideRobot.Robot.Click | components/GuideRobot.tsx:80-83 | the count goes up by one, the robot spins, the bubble opens showing the click title, the reply for the new count and the section's tip |
| GuideRobot.Robot.Close | components/GuideRobot.tsx:190-193 | the close button hides the bubble and changes nothing else |
| GuideRobot.Robot.TimerFires | components/GuideRobot.tsx:85-92 | the spin timer ends the spin only; the two auto-hide timers close the bubble only |

## Left out

- Floating point: the particle fields and the distance arithmetic (components/Scene.tsx:46-48, 75-80) are double-precision, and the point and line buffers are single-precision. The model uses exact reals throughout, so a pair whose squared distance rounds across the threshold may be decided differently.
- Random initial particles (components/Scene.tsx:11-24): the constructor takes the initial particles as a parameter.
- The `needsUpdate` flags and the renderer's upload of the buffers are left out, because they only tell the GPU to re-read the buffers.
- ParticleNetwork.NetworkParticles.constructor: a fresh three.js geometry draws with an unbounded vertex count, which is clamped to the vertices its buffer holds; the model states this as a draw count of two vertices per line slot of the buffer.
- The draw range's start is always 0 and is not modelled. Only its vertex count is modelled.
- The JSX, styling and animation of both components are not modelled, nor is the mouse-follow `position` state of the robot, which nothing sets.
- GuideRobot.Robot.Scroll: `window.scrollY` and `window.innerHeight` are parameters; adding and removing the scroll listener is left to the host.
- GuideRobot.Robot.TimerFires: the 5 s, 8 s and 0.6 s timeouts are events the host delivers. Which timers are pending, and the `clearTimeout` of the section timer when the section changes again, are left to the host.
- ParticleNetwork.NetworkParticles.MoveParticles: the source updates each particle record in place (`p.x += p.vx`). The model replaces array element i with the updated record, because each record is reachable only from the particle array.
- ParticleNetwork.NetworkParticles.VisitPair and ParticleNetwork.NetworkParticles.ScanRow: the source's inner loop and its body are inline in the frame callback. The model splits them into helper methods with the same control flow.
- The other scene actors (planets, rocks, robots, rockets, stars) and the galaxy scene's trigonometric motion are not part of this model.
- The page layout and the sections' own content are not part of this model.
