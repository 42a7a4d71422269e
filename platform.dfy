/** Opaque stand-ins for the platform values the collage and editor code
    pass around but never look inside: UIKit colours and images, SwiftUI
    colours, Foundation UUID strings, and Swift's Optional. */
module Platform {

  /** Swift's `Optional`: `nil` is `None`. */
  datatype Option<+T> = None | Some(value: T)

  /** The UIKit colours the preset library and the previews use. */
  datatype UIColor =
    | SystemRed | SystemIndigo | SystemPink | SystemTeal | SystemBlue
    | SystemGray | SystemGray2 | SystemOrange | SystemBrown | SystemYellow
    | SystemPurple | SystemCyan | SystemMint | SystemGreen
    | Green | Magenta | Brown | Red | Blue

  /** A raster image, known only by an opaque handle. */
  datatype UIImage = UIImage(handle: nat)

  /** A SwiftUI colour, known only by an opaque handle. */
  datatype Color = Color(handle: nat)

  /** A UUID string; only its identity matters, so a number stands for it. */
  datatype Uuid = Uuid(n: nat)
}
