/**
 * What the plugin reads of the descriptor `@vue/compiler-sfc` returns for a
 * `.vue` file, and of the `pluginData` it passes between its callbacks.
 * Parsing itself is not modelled: a descriptor is an input.
 */
module Sfc {
  import opened Wrappers

  /** A `<script>`, `<script setup>` or `<template>` block: its text, its `lang` and its first line in the file. */
  datatype Block = Block(content: string, lang: Option<string>, startLine: int)

  /** A `<style>` block; `scoped` is its attribute. */
  datatype StyleBlock = StyleBlock(content: string, lang: Option<string>, scoped: bool, startLine: int)

  datatype Descriptor = Descriptor(
    filename: string,
    script: Option<Block>,
    scriptSetup: Option<Block>,
    template: Option<Block>,
    styles: seq<StyleBlock>,
    slotted: bool)

  /** `descriptor.script || descriptor.scriptSetup` */
  predicate HasScript(d: Descriptor)
  {
    d.script.Some? || d.scriptSetup.Some?
  }

  /** `descriptor.styles.some(o => o.scoped)` */
  predicate AnyScoped(styles: seq<StyleBlock>)
  {
    exists i :: 0 <= i < |styles| && styles[i].scoped
  }

  /**
   * `pluginData`: the stub load sets `descriptor` and `id`, the `.vue`
   * resolver copies the importer's fields and sets `index`; a field that
   * is `undefined` is `None`.
   */
  datatype PluginData = PluginData(descriptor: Option<Descriptor>, id: Option<string>, index: Option<string>)

  /** Spreading `undefined` gives an object without fields. */
  const NoData := PluginData(None, None, None)
}
