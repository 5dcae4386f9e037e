/** `Plane` (src/vash/Plane.java): a w×h buffer of cells that every node writes in place. */
module Planes {
  class Plane {
    const w: int
    const h: int
    /** `data[x][y]`: w columns of h cells each; the reference is final, the cells are not. */
    const data: array2<real>

    /** Allocates a fresh buffer; Java's `new float[w][h]` throws for a negative size, here sizes are `nat`. */
    constructor (w: nat, h: nat)
      ensures this.w == w && this.h == h
      ensures fresh(data) && data.Length0 == w && data.Length1 == h
    {
      this.w := w;
      this.h := h;
      data := new real[w, h];
    }
  }
}
