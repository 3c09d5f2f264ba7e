# Rectangle (max-rects bin packer), modelled in Dafny

This project models the `Rectangle` class of the max-rects bin packer
(`lib/rectangle.js`). A rectangle is axis-aligned and mutable. It has a
caller-supplied `id` and a stored geometry: `left`, `top`, `width` and
`height`. It also caches three derived fields: `right`, `bottom` and `area`.
`reset` overwrites the geometry and recomputes the cached fields. `shrink`
moves every edge inward by an amount, using two update paths: the edges are
moved directly, and width/height lose twice the amount. `contains` is a
boundary-inclusive test that reads the *cached* `right`/`bottom`.

Layout:

- `geometry.dfy`, module `Geometry`. The numeric field state as a value
  (`Rect`) and the class invariant `Consistent`: `right = left + width`,
  `bottom = top + height`, `area = width * height`. It also gives `reset`,
  `shrink` and `contains` as functions on that value, plus lemmas about them
  and about any sequence of `reset`/`shrink` calls (`Op`, `Run`, `ShrinkAll`).
- `rectangle.dfy`, module `Rectangles`. The class `Rectangle<Id>` with the
  eight fields. `Reset` and `Shrink` are methods that update the fields in
  place, step by step as the source does. Each one's postcondition ties the
  new field state to the `Geometry` function of the old state and says that
  `id` is unchanged. `Valid()` is the invariant. `Contains` reads the cached
  fields of both rectangles.
- `scenarios.dfy`, module `Scenarios`. Client methods checked only against
  the class contracts:
  - construction, reset and shrink by one;
  - containment one way but not the other;
  - resetting twice;
  - a shrink past the width;
  - a stale cached `right` that `contains` does not notice.

Numbers are mathematical integers, so arithmetic is exact. Under exact
arithmetic the two update paths of `shrink` agree (`Geometry.ShrinkIsResetOfMovedEdges`).
One might expect a negative area once twice the amount exceeds the width.
The code computes `width * height`, so the area is negative only if
the height stays positive. When both dimensions collapse, the area is positive
(`Geometry.ShrinkPastWidth`, `Geometry.BothDimensionsCollapse`). The model follows the code.

## Model

| member | source | states |
|---|---|---|
| `Geometry.Reset` | lib/rectangle.js:11-19 | reset stores the four arguments unvalidated and the resulting state satisfies the invariant |
| `Geometry.Shrink` | lib/rectangle.js:25-34 | the two-path shrink preserves the invariant from any consistent state, and area is always recomputed from the new width and height |
| `Geometry.Contains` | lib/rectangle.js:21-23 | boundary-inclusive containment over the cached left/top/right/bottom of both states; for two consistent states it equals containment of the recomputed edges |
| `Geometry.ShrinkIsResetOfMovedEdges` | lib/rectangle.js:25-34 | on a consistent rectangle, shrink by n equals a reset to left+n, top+n, width-2n, height-2n, with right and bottom moved back by n |
| `Geometry.ResetOverwritesEverything` | lib/rectangle.js:11-19 | reset is idempotent: resetting twice with the same arguments leaves the same state as once, whatever the prior state |
| `Geometry.ShrinkZero` | lib/rectangle.js:25-34 | shrink(0) keeps every geometric field, and leaves the whole state unchanged exactly when area was up to date |
| `Geometry.ShrinkPastWidth` | lib/rectangle.js:25-34 | when 2n exceeds the width, shrink is still accepted and gives a negative width; the area is negative exactly when 2n is below the height |
| `Geometry.BothDimensionsCollapse` | lib/rectangle.js:30-33 | a 2x2 rectangle shrunk by 2 has width -2 and area +4, so a negative width need not give a negative area |
| `Geometry.ContainsReflexive` | lib/rectangle.js:22 | every rectangle contains itself (boundary-inclusive) |
| `Geometry.ContainsTransitive` | lib/rectangle.js:22 | containment is transitive |
| `Geometry.ShrinkNested` | lib/rectangle.js:21-34 | a rectangle contains its shrink by n iff n >= 0, and the shrunk rectangle contains the original iff n <= 0, consistent or not |
| `Geometry.RunKeepsConsistent` | lib/rectangle.js:11-34 | every sequence of reset/shrink calls from a consistent state ends in a consistent state |
| `Geometry.RunAfterResetConsistent` | lib/rectangle.js:11-34 | a sequence of calls that includes a reset ends consistent whatever the starting state |
| `Geometry.ShrinkTwice` | lib/rectangle.js:25-34 | shrinking by a then by b is shrinking by a+b |
| `Geometry.ShrinkAllIsOneShrink` | lib/rectangle.js:25-34 | any non-empty series of shrinks equals one shrink by the sum of the amounts |
| `Geometry.ShrinkAllNested` | lib/rectangle.js:21-34 | a rectangle contains the result of any series of non-negative shrinks of it |
| `Rectangles.Rectangle.constructor` | lib/rectangle.js:6-9 | the new object has the given id, the given geometry, right/bottom/area computed from it, and is valid |
| `Rectangles.Rectangle.Reset` | lib/rectangle.js:11-19 | updates in place to the reset state of the arguments; the object is valid afterwards and id is unchanged |
| `Rectangles.Rectangle.Shrink` | lib/rectangle.js:25-34 | left/top gain n, right/bottom lose n, width/height lose 2n, area is width*height and is returned, id is unchanged, and validity is preserved |
| `Rectangles.Rectangle.Contains` | lib/rectangle.js:21-23 | agrees with boundary-inclusive containment on the cached fields; for two valid rectangles it equals containment of the recomputed edges |
| `Rectangles.Rectangle.ToString` | lib/rectangle.js:36-38 | the text starts with `[Rect(id:` then the id's text, and ends with `)]` |

## Left out

- The CoffeeScript wrapper function and the `module.exports` wiring (lib/rectangle.js:2-3, 44-48) are left out. They are module plumbing with no behaviour.
- IEEE-754 doubles are not modelled: NaN, infinities, rounding, and the inputs on which the two update paths of `shrink` would disagree. All fields are exact integers.
- Non-integer coordinates and amounts (a width of 2.5, `shrink(0.5)`) are outside the model.
- Dynamic-typing effects, such as a string argument that concatenates instead of adding, are not modelled. Static types rule them out.
- `id` is an opaque type parameter. JavaScript lets `contains` compare rectangles whose ids have different types; the model compares rectangles of one id type.
- Rectangles.Rectangle.ToString: the contract fixes only the `[Rect(id:` prefix followed by the id's text and the `)]` suffix; it says nothing about the `, left:…, top:…, w:…, h:…` parts in between. How JavaScript turns the id and the numbers into text is supplied by the caller as `idText` and `numText`, because that conversion is not part of this model.
