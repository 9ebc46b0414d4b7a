/**
 * The legacy single-file page keeps its own copies of the glyph parser, the orbit engine, the
 * carousel and the product modal.  Its carousel handlers (drag, touch, wheel, keyboard, hover and
 * focus) and its projection behave as the feature carousel's do, and are modelled by
 * `Carousel.OrbitCarousel` and `Projection`.  This module holds what the legacy copy does
 * differently or in addition: the parser trims every line, the engine stamps the interaction
 * time when it is created, the bottom tab of the focused product is highlighted, and the product
 * modal links to a marketplace and shows a shortened contract address.
 */
module LegacyPage {
  import Orbit
  import Carousel
  import PixelArt
  import Wallet

  // ----- The glyph parser ---------------------------------------------------------------------

  /** `lines.map(l => l.trim())` */
  function TrimEach(lines: seq<string>): (trimmed: seq<string>)
    ensures |trimmed| == |lines|
  {
    if lines == [] then [] else [PixelArt.Trim(lines[0])] + TrimEach(lines[1..])
  }

  /** `.filter(Boolean)`: keep the non-empty strings. */
  function KeepNonEmpty(lines: seq<string>): seq<string>
  {
    if lines == [] then []
    else if lines[0] != [] then [lines[0]] + KeepNonEmpty(lines[1..])
    else KeepNonEmpty(lines[1..])
  }

  /** The legacy rows: trim the text, split it into lines, trim each line, drop the empty ones. */
  function LegacyRows(pixelData: string): seq<string>
  {
    KeepNonEmpty(TrimEach(PixelArt.SplitLines(PixelArt.Trim(pixelData))))
  }

  /** The legacy grid: one cell per character of each legacy row (`Array.from(line)`). */
  function LegacyRender(pixelData: string, size: real): seq<seq<PixelArt.Cell>>
  {
    var rows := LegacyRows(pixelData);
    seq(|rows|, y requires 0 <= y < |rows| => PixelArt.RowCells(rows[y], size))
  }

  /** Line `k` of the trimmed lines is line `k` trimmed. */
  lemma {:induction false} TrimEachAt(lines: seq<string>)
    ensures forall k :: 0 <= k < |lines| ==> TrimEach(lines)[k] == PixelArt.Trim(lines[k])
  {
    if lines != [] {
      TrimEachAt(lines[1..]);
      assert TrimEach(lines) == [PixelArt.Trim(lines[0])] + TrimEach(lines[1..]);
    }
  }

  /** Trimming then dropping empty lines is dropping blank lines then trimming. */
  lemma {:induction false} TrimThenFilterCommute(lines: seq<string>)
    ensures KeepNonEmpty(TrimEach(lines)) == TrimEach(PixelArt.KeepNonBlank(lines))
  {
    if lines != [] {
      TrimThenFilterCommute(lines[1..]);
      assert TrimEach(lines) == [PixelArt.Trim(lines[0])] + TrimEach(lines[1..]);
      assert TrimEach(lines)[1..] == TrimEach(lines[1..]);
      if PixelArt.Trim(lines[0]) != [] {
        var kept := PixelArt.KeepNonBlank(lines[1..]);
        assert PixelArt.KeepNonBlank(lines) == [lines[0]] + kept;
        assert ([lines[0]] + kept)[1..] == kept;
      }
    }
  }

  /**
   * The legacy parser keeps the same rows as the feature parser, each one trimmed: the two grids
   * have the same number of rows and row `k` of the legacy grid is row `k` of the feature grid
   * without its outer white space.
   */
  lemma LegacyRowsAreTrimmedRows(pixelData: string)
    ensures LegacyRows(pixelData) == TrimEach(PixelArt.Rows(pixelData))
    ensures |LegacyRows(pixelData)| == |PixelArt.Rows(pixelData)|
    ensures forall k :: 0 <= k < |PixelArt.Rows(pixelData)| ==>
              LegacyRows(pixelData)[k] == PixelArt.Trim(PixelArt.Rows(pixelData)[k])
  {
    TrimThenFilterCommute(PixelArt.SplitLines(PixelArt.Trim(pixelData)));
    TrimEachAt(PixelArt.Rows(pixelData));
  }

  /** No legacy row is empty, and none starts or ends with white space. */
  lemma LegacyRowsAreTight(pixelData: string)
    ensures forall k :: 0 <= k < |LegacyRows(pixelData)| ==>
              var row := LegacyRows(pixelData)[k];
              row != [] && !PixelArt.IsWhitespace(row[0]) && !PixelArt.IsWhitespace(row[|row| - 1])
  {
    LegacyRowsAreTrimmedRows(pixelData);
    var rows := PixelArt.Rows(pixelData);
    PixelArt.KeepNonBlankKeepsExactlyNonBlank(PixelArt.SplitLines(PixelArt.Trim(pixelData)));
    forall k | 0 <= k < |rows|
      ensures var row := LegacyRows(pixelData)[k];
              row != [] && !PixelArt.IsWhitespace(row[0]) && !PixelArt.IsWhitespace(row[|row| - 1])
    {
      assert rows[k] in rows;
      PixelArt.TrimHasNoOuterWhitespace(rows[k]);
    }
  }

  /** The two parsers give the same rows exactly when no feature row has outer white space. */
  lemma ParsersAgreeExactlyOnTightRows(pixelData: string)
    ensures LegacyRows(pixelData) == PixelArt.Rows(pixelData) <==>
              forall k :: 0 <= k < |PixelArt.Rows(pixelData)| ==>
                PixelArt.Trim(PixelArt.Rows(pixelData)[k]) == PixelArt.Rows(pixelData)[k]
  {
    LegacyRowsAreTrimmedRows(pixelData);
    var rows := PixelArt.Rows(pixelData);
    if LegacyRows(pixelData) == rows {
      forall k | 0 <= k < |rows| ensures PixelArt.Trim(rows[k]) == rows[k] {
        assert LegacyRows(pixelData)[k] == rows[k];
      }
    }
  }

  lemma {:induction false} TrimEachKeepsBlocks(lines: seq<string>)
    ensures PixelArt.CountInLines(TrimEach(lines)) == PixelArt.CountInLines(lines)
  {
    if lines != [] {
      TrimEachKeepsBlocks(lines[1..]);
      PixelArt.TrimKeepsBlocks(lines[0]);
      assert TrimEach(lines)[1..] == TrimEach(lines[1..]);
    }
  }

  /**
   * Trimming each line loses no full block: the legacy grid has as many filled cells as the
   * feature grid, and as the text has full blocks.
   */
  lemma LegacyFilledCellsEqualBlocks(pixelData: string, size: real)
    ensures PixelArt.FilledCells(LegacyRender(pixelData, size)) == PixelArt.Count(pixelData, PixelArt.FullBlock)
    ensures PixelArt.FilledCells(LegacyRender(pixelData, size)) == PixelArt.FilledCells(PixelArt.Render(pixelData, size))
  {
    PixelArt.GridFilledCount(LegacyRows(pixelData), size);
    LegacyRowsAreTrimmedRows(pixelData);
    TrimEachKeepsBlocks(PixelArt.Rows(pixelData));
    PixelArt.FilledCellsEqualBlocks(pixelData, size);
  }

  // ----- The engine ---------------------------------------------------------------------------

  /**
   * The legacy hook's first render: the same angles and speed as the feature hook, but the
   * interaction time is stamped at creation (`useRef(Date.now())`) instead of by a mount effect.
   */
  method MountEngine(itemCount: nat, friction: real, idle: real, now: int) returns (e: Orbit.Engine)
    ensures fresh(e)
    ensures e.theta == Orbit.InitialAngles(itemCount) && e.speed == idle
    ensures e.lastInteraction == now
    ensures e.friction == friction && e.idle == idle
  {
    e := new Orbit.Engine(itemCount, friction, idle);
    e.MarkMounted(now);
  }

  /**
   * An engine at its idle speed stays there whatever the elapsed times are: a reset lands on
   * idle and friction never applies, so over the run the angles drift by `idle` per frame
   * (`distance` is that product).
   */
  lemma {:induction false} AtRestDriftsAtIdle(theta: seq<real>, elapsed: seq<int>, idle: real, friction: real, distance: real)
    requires distance == (|elapsed| as real) * idle
    ensures Orbit.Run(Orbit.Motion(theta, idle), elapsed, idle, friction) == Orbit.Motion(Orbit.Shift(theta, distance), idle)
    decreases |elapsed|
  {
    if elapsed == [] {
      assert Orbit.Shift(theta, 0.0) == theta;
      ShiftBySameAmount(theta, 0.0, distance);
    } else {
      var drifted := Orbit.Shift(theta, idle);
      assert Orbit.NextSpeed(idle, elapsed[0], idle, friction) == idle;
      assert Orbit.Advance(Orbit.Motion(theta, idle), elapsed[0], idle, friction) == Orbit.Motion(drifted, idle);
      AtRestDriftsAtIdle(drifted, elapsed[1..], idle, friction, distance - idle);
      Orbit.ShiftCompose(theta, idle, distance - idle);
      ShiftBySameAmount(theta, idle + (distance - idle), distance);
    }
  }

  /** Shifting by equal amounts gives equal angles (the amounts here are equal by arithmetic). */
  lemma ShiftBySameAmount(theta: seq<real>, x: real, y: real)
    requires x == y
    ensures Orbit.Shift(theta, x) == Orbit.Shift(theta, y)
  {
  }

  /**
   * Where the interaction time is stamped does not show until the first impulse: from the idle
   * speed, any two runs with the same number of frames end in the same state, whatever the
   * elapsed times each engine measured.  Every impulse stamps the time afresh in both engines.
   */
  lemma MountStampIsInvisibleAtRest(theta: seq<real>, feature: seq<int>, legacy: seq<int>, idle: real, friction: real)
    requires |feature| == |legacy|
    ensures Orbit.Run(Orbit.Motion(theta, idle), feature, idle, friction) ==
            Orbit.Run(Orbit.Motion(theta, idle), legacy, idle, friction)
  {
    var distance := (|feature| as real) * idle;
    AtRestDriftsAtIdle(theta, feature, idle, friction, distance);
    AtRestDriftsAtIdle(theta, legacy, idle, friction, distance);
  }

  // ----- The bottom tabs ----------------------------------------------------------------------

  /** `idx === focusedIndex` */
  predicate TabHighlighted(idx: nat, focus: Carousel.Focus)
  {
    focus == Carousel.Index(idx)
  }

  /** The highlighted tabs among `count` products. */
  function HighlightedTabs(count: nat, focus: Carousel.Focus): set<nat>
  {
    set idx: nat | idx < count && TabHighlighted(idx, focus)
  }

  /**
   * Exactly the tab of the focused product is highlighted; with no focus (-1) or NaN, none is.
   */
  lemma HighlightedTabIsFocus(count: nat, focus: Carousel.Focus)
    ensures HighlightedTabs(count, focus) ==
              if focus.Index? && 0 <= focus.i < count then {focus.i as nat} else {}
  {
    var expected: set<nat> := if focus.Index? && 0 <= focus.i < count then {focus.i as nat} else {};
    forall idx: nat ensures idx in HighlightedTabs(count, focus) <==> idx in expected {
    }
  }

  /** After either arrow key, on a page with products, exactly one tab is highlighted. */
  lemma OneTabAfterArrow(count: nat, focus: Carousel.Focus)
    requires count > 0 && Carousel.FocusInRange(focus, count)
    ensures |HighlightedTabs(count, Carousel.FocusLeft(focus, count))| == 1
    ensures |HighlightedTabs(count, Carousel.FocusRight(focus, count))| == 1
  {
    Carousel.ArrowsStayInRange(focus, count);
    HighlightedTabIsFocus(count, Carousel.FocusLeft(focus, count));
    HighlightedTabIsFocus(count, Carousel.FocusRight(focus, count));
  }

  // ----- The product modal --------------------------------------------------------------------

  /** The keys of the marketplace table. */
  datatype Marketplace = OpenSea | Rarible | Blur

  function BaseUrl(m: Marketplace): string
  {
    match m
    case OpenSea => "https://opensea.io/assets/ethereum/"
    case Rarible => "https://rarible.com/token/"
    case Blur => "https://blur.io/asset/"
  }

  /** `${marketplace.baseUrl}${product.contractAddress}` */
  function NftUrl(m: Marketplace, contractAddress: string): string
  {
    BaseUrl(m) + contractAddress
  }

  /**
   * The link starts with the marketplace's base URL and ends with the contract address, so
   * both can be read back from it.
   */
  lemma NftUrlRecoversContract(m: Marketplace, contractAddress: string)
    ensures |BaseUrl(m)| <= |NftUrl(m, contractAddress)|
    ensures NftUrl(m, contractAddress)[..|BaseUrl(m)|] == BaseUrl(m)
    ensures NftUrl(m, contractAddress)[|BaseUrl(m)|..] == contractAddress
  {
  }

  /** Different products (marketplace or contract) never share a link. */
  lemma NftUrlIsInjective(m1: Marketplace, c1: string, m2: Marketplace, c2: string)
    ensures NftUrl(m1, c1) == NftUrl(m2, c2) <==> m1 == m2 && c1 == c2
  {
    if NftUrl(m1, c1) == NftUrl(m2, c2) {
      assert NftUrl(m1, c1)[8] == BaseUrl(m1)[8];
      assert NftUrl(m2, c2)[8] == BaseUrl(m2)[8];
      assert m1 == m2;
      NftUrlRecoversContract(m1, c1);
      NftUrlRecoversContract(m2, c2);
    }
  }

  const ContractEllipsis: string := "..."

  /** `${product.contractAddress.slice(0, 8)}...` */
  function ShortContract(contractAddress: string): string
  {
    Wallet.Take(contractAddress, 8) + ContractEllipsis
  }

  /**
   * The shortened contract is its first eight characters (all of it when shorter) followed by
   * three dots.
   */
  lemma ShortContractShape(contractAddress: string)
    ensures var head := Wallet.Min(8, |contractAddress|);
            && |ShortContract(contractAddress)| == head + 3
            && ShortContract(contractAddress)[..head] == contractAddress[..head]
            && ShortContract(contractAddress)[head..] == ContractEllipsis
  {
  }

  /** Two contracts of at least eight characters look the same exactly when they start alike. */
  lemma ShortContractSameExactly(x: string, y: string)
    requires |x| >= 8 && |y| >= 8
    ensures ShortContract(x) == ShortContract(y) <==> x[..8] == y[..8]
  {
    if ShortContract(x) == ShortContract(y) {
      assert ShortContract(x)[..8] == x[..8];
      assert ShortContract(y)[..8] == y[..8];
    }
  }
}
