/** Sv32 entries as 32-bit words: the macros of include/mmu.h and the inline conversions of
    include/pmap.h (section 4.3 of the RISC-V Privileged Architecture manual, version 20211203). */
module Sv32 {

  const PERM_MASK: bv32 := 0xc00003ff   // the bits fork, spawn and cow_entry keep of an entry
  const PTE_V: bv32 := 1

  function PageToAddr(ppn: bv32): bv32 { (ppn << 12) + 0x80000000 }

  function PageToPtx(ppn: bv32): bv32 { (PageToAddr(ppn) >> 12) << 10 }

  function PteAddr(pte: bv32): bv32 { (pte & !0x3ff) & !(0x3 << 30) }

  function Paddr(x: bv32): bv32 { (x >> 10) << 12 }

  /** `addr2page`, without its range check. */
  function AddrToPage(addr: bv32): bv32 { (addr - 0x80000000) >> 12 }

  /** The word `page_insert` writes. */
  function Encode(ppn: bv32, perm: bv32): bv32 { PageToPtx(ppn) | perm | PTE_V }

  /** The page `page_lookup` reads out of an entry: no masking, the shift drops the top bits. */
  function LookupPage(pte: bv32): bv32 { AddrToPage((pte >> 10) << 12) }

  /** The address `va2pa` reads out of an entry, and `page_insert` compares. */
  function TranslatedAddr(pte: bv32): bv32 { Paddr(PteAddr(pte)) }

  /** `e_mem_alloc` and `e_mem_map` pass the caller's permission word on unmasked. The entry still
      names the page that was asked for exactly when the stray bits are bits of its frame number. */
  lemma StrayPermission(ppn: bv32, perm: bv32)
    requires ppn < 0x10000
    ensures LookupPage(Encode(ppn, perm)) == ppn <==> perm & !PERM_MASK & !PageToPtx(ppn) == 0
  {
  }

  /** The two decodings never disagree, whatever is in the word. */
  lemma DecodersAgree(pte: bv32)
    ensures LookupPage(pte) == AddrToPage(TranslatedAddr(pte))
  {
  }

  lemma TranslatedPage(ppn: bv32, perm: bv32)
    requires ppn < 0x10000 && perm & !PERM_MASK == 0
    ensures TranslatedAddr(Encode(ppn, perm)) == PageToAddr(ppn)
  {
  }

  lemma PermissionKept(ppn: bv32, perm: bv32)
    requires perm & !PERM_MASK == 0 && ppn < 0x10000
    ensures Encode(ppn, perm) & PERM_MASK == perm | PTE_V
  {
    assert PageToPtx(ppn) & PERM_MASK == 0;
  }

  /** An entry gives back its page and its permissions, and the kernel's two ways of decoding it
      agree, for every page of memory and every permission within the mask. */
  lemma EntryRoundTrip(ppn: bv32, perm: bv32)
    requires ppn < 0x10000 && perm & !PERM_MASK == 0
    ensures LookupPage(Encode(ppn, perm)) == ppn
    ensures AddrToPage(TranslatedAddr(Encode(ppn, perm))) == ppn
    ensures TranslatedAddr(Encode(ppn, perm)) == PageToAddr(ppn)
    ensures Encode(ppn, perm) & PERM_MASK == perm | PTE_V
  {
    StrayPermission(ppn, perm);
    DecodersAgree(Encode(ppn, perm));
    TranslatedPage(ppn, perm);
    PermissionKept(ppn, perm);
  }
}
