/**
 * The price slider of the Lumina sidebar (src/components/common/Sidebar.jsx):
 * two thumbs held in local state at least 100 apart, pushed into the
 * store's price range when a thumb is released, and reset from the store
 * whenever its range changes.
 */
module Sidebar {
  import opened LuminaStore

  /** The least distance the two thumbs keep. */
  const MinGap: int := 100

  /** `handleMinChange`: the lower thumb stops 100 below the upper one. */
  function ClampMin(value: int, localMax: int): (r: int)
    ensures r <= localMax - MinGap
    ensures r <= value
    ensures value <= localMax - MinGap ==> r == value
    ensures value > localMax - MinGap ==> r == localMax - MinGap
  {
    if value < localMax - MinGap then value else localMax - MinGap
  }

  /** `handleMaxChange`: the upper thumb stops 100 above the lower one. */
  function ClampMax(value: int, localMin: int): (r: int)
    ensures r >= localMin + MinGap
    ensures r >= value
    ensures value >= localMin + MinGap ==> r == value
    ensures value < localMin + MinGap ==> r == localMin + MinGap
  {
    if value > localMin + MinGap then value else localMin + MinGap
  }

  /** The slider's local state. */
  class PriceSlider {
    var localMin: int
    var localMax: int

    /** The thumbs are at least `MinGap` apart. */
    predicate Gapped()
      reads this
    {
      localMax - localMin >= MinGap
    }

    /** The local bounds start as the store's range. */
    constructor(store: Store)
      ensures localMin == store.priceRange.min && localMax == store.priceRange.max
    {
      localMin := store.priceRange.min;
      localMax := store.priceRange.max;
    }

    method HandleMinChange(value: int)
      modifies this
      ensures localMin == ClampMin(value, old(localMax)) && localMax == old(localMax)
      ensures Gapped()
    {
      localMin := ClampMin(value, localMax);
    }

    method HandleMaxChange(value: int)
      modifies this
      ensures localMax == ClampMax(value, old(localMin)) && localMin == old(localMin)
      ensures Gapped()
    {
      localMax := ClampMax(value, localMin);
    }

    /** `handleMouseUp`: the local bounds become the store's range; nothing else in the store changes. */
    method HandleMouseUp(store: Store)
      modifies store
      ensures store.priceRange == PriceRange(localMin, localMax)
      ensures store.cart == old(store.cart) && store.cartCount == old(store.cartCount)
      ensures store.activeCategory == old(store.activeCategory) && store.sortBy == old(store.sortBy)
      ensures store.wishlist == old(store.wishlist)
    {
      store.SetMinPrice(localMin);
      store.SetMaxPrice(localMax);
    }

    /** The sync effect: a new store range resets both local bounds to it. */
    method Sync(store: Store)
      modifies this
      ensures localMin == store.priceRange.min && localMax == store.priceRange.max
    {
      localMin := store.priceRange.min;
      localMax := store.priceRange.max;
    }
  }

  /**
   * Dragging a thumb and releasing it: the store's range ends up with the
   * clamped value, 100 or more apart, and the sync effect that follows
   * changes nothing.
   */
  method DragLowerThumb(store: Store, slider: PriceSlider, value: int)
    requires slider.localMin == store.priceRange.min && slider.localMax == store.priceRange.max
    modifies store, slider
    ensures store.priceRange == PriceRange(ClampMin(value, old(store.priceRange.max)), old(store.priceRange.max))
    ensures store.priceRange.max - store.priceRange.min >= MinGap
    ensures slider.localMin == store.priceRange.min && slider.localMax == store.priceRange.max
  {
    slider.HandleMinChange(value);
    slider.HandleMouseUp(store);
    slider.Sync(store);
  }

  /** The same for the upper thumb. */
  method DragUpperThumb(store: Store, slider: PriceSlider, value: int)
    requires slider.localMin == store.priceRange.min && slider.localMax == store.priceRange.max
    modifies store, slider
    ensures store.priceRange == PriceRange(old(store.priceRange.min), ClampMax(value, old(store.priceRange.min)))
    ensures store.priceRange.max - store.priceRange.min >= MinGap
    ensures slider.localMin == store.priceRange.min && slider.localMax == store.priceRange.max
  {
    slider.HandleMaxChange(value);
    slider.HandleMouseUp(store);
    slider.Sync(store);
  }
}
