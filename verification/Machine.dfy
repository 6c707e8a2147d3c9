/** Machine integers of the source where their width shows: a 64-bit usize with saturating addition. */
module Machine {
  const USIZE_MAX: nat := 0xFFFF_FFFF_FFFF_FFFF

  type usize = n: nat | n <= USIZE_MAX

  function SaturatingAdd(a: usize, b: usize): (r: usize)
    ensures r <= a + b
    ensures a + b <= USIZE_MAX <==> r == a + b
    ensures a <= r && b <= r
  {
    if a + b <= USIZE_MAX then a + b else USIZE_MAX
  }

  /** What a saturating counter shows for a true total. */
  function Clamp(total: nat): usize {
    if total <= USIZE_MAX then total else USIZE_MAX
  }
}
