/** Vectors, planes and boxes in three dimensions (geometry/vec3.go, geometry/plane.go, geometry/box.go). */
module Vectors {
  datatype Vec3 = Vec3(x: real, y: real, z: real) {
    function Add(w: Vec3): Vec3 {
      Vec3(x + w.x, y + w.y, z + w.z)
    }

    function Sub(w: Vec3): Vec3 {
      Vec3(x - w.x, y - w.y, z - w.z)
    }

    function Scale(s: real): Vec3 {
      Vec3(x * s, y * s, z * s)
    }

    function Dot(w: Vec3): real {
      x * w.x + y * w.y + z * w.z
    }

    function Cross(w: Vec3): Vec3 {
      Vec3(y * w.z - z * w.y, z * w.x - x * w.z, x * w.y - y * w.x)
    }

    function Axis(a: nat): real {
      if a == 1 then y else if a == 2 then z else x
    }
  }

  const ZERO := Vec3(0.0, 0.0, 0.0)

  datatype Plane = Plane(normal: Vec3, distance: real) {
    function SideOf(p: Vec3): real {
      normal.Dot(p) - distance
    }
  }

  function Min(a: real, b: real): real {
    if a < b then a else b
  }

  function Max(a: real, b: real): real {
    if a > b then a else b
  }

  function MinCorner(a: Vec3, b: Vec3): Vec3 {
    Vec3(Min(a.x, b.x), Min(a.y, b.y), Min(a.z, b.z))
  }

  function MaxCorner(a: Vec3, b: Vec3): Vec3 {
    Vec3(Max(a.x, b.x), Max(a.y, b.y), Max(a.z, b.z))
  }

  /** An axis-aligned box. */
  datatype Box = Box(lo: Vec3, hi: Vec3) {
    predicate Contains(p: Vec3) {
      lo.x <= p.x <= hi.x && lo.y <= p.y <= hi.y && lo.z <= p.z <= hi.z
    }

    function Center(): Vec3 {
      lo.Add(hi).Scale(0.5)
    }

    function Dimensions(): Vec3 {
      hi.Sub(lo)
    }
  }
}
