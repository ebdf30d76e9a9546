/** The wallpaper manager: the mobile fallback for shader wallpapers and the
    layers drawn for a wallpaper choice. */
module Wallpaper {

  datatype WallpaperType = Shader | Gradient | Particle | Solid

  /** The layers the manager can draw. Presets are the renderers' own names. */
  datatype Layer =
    | ShaderLayer(preset: string)
    | GradientLayer(preset: string)
    | ParticleLayer(kind: string, density: nat)
    | SolidLayer(color: string)

  const FallbackPreset := "subtle"
  const NoEffect := "none"

  /** A shader requested on a mobile device is drawn as a gradient. */
  predicate FallsBack(t: WallpaperType, isMobile: bool) {
    isMobile && t == Shader
  }

  /** `effectiveType`. */
  function EffectiveType(t: WallpaperType, isMobile: bool): (r: WallpaperType)
    ensures FallsBack(t, isMobile) ==> r == Gradient
    ensures !FallsBack(t, isMobile) ==> r == t
    ensures isMobile ==> r != Shader
  {
    if FallsBack(t, isMobile) then Gradient else t
  }

  /** `effectivePreset`. */
  function EffectivePreset(t: WallpaperType, preset: string, isMobile: bool): (r: string)
    ensures FallsBack(t, isMobile) ==> r == FallbackPreset
    ensures !FallsBack(t, isMobile) ==> r == preset
  {
    if FallsBack(t, isMobile) then FallbackPreset else preset
  }

  /** The four conditional base layers, in drawing order. */
  function BaseLayers(t: WallpaperType, preset: string, isDark: bool, isMobile: bool): (r: seq<Layer>)
    ensures |r| == 1
  {
    var et := EffectiveType(t, isMobile);
    var ep := EffectivePreset(t, preset, isMobile);
    (if et == Shader then [ShaderLayer(ep)] else [])
    + (if et == Gradient then [GradientLayer(ep)] else [])
    + (if et == Particle then [ParticleLayer(ep, 30)] else [])
    + (if et == Solid then [SolidLayer(if isDark then "#0a0a0a" else "#ffffff")] else [])
  }

  /** The particle overlay, drawn over the base for any effect but `none`. */
  function Overlay(particleEffect: string): (r: seq<Layer>)
    ensures |r| <= 1
    ensures r != [] <==> particleEffect != NoEffect
  {
    if particleEffect != NoEffect then [ParticleLayer(particleEffect, 25)] else []
  }

  function Layers(t: WallpaperType, preset: string, isDark: bool, particleEffect: string, isMobile: bool): seq<Layer> {
    BaseLayers(t, preset, isDark, isMobile) + Overlay(particleEffect)
  }

  /** The one base layer is the renderer the effective type names, with the
      effective preset; a solid wallpaper is near-black when dark and white
      otherwise. */
  lemma BaseLayerChoice(t: WallpaperType, preset: string, isDark: bool, isMobile: bool)
    ensures var b := BaseLayers(t, preset, isDark, isMobile)[0];
      && (FallsBack(t, isMobile) ==> b == GradientLayer(FallbackPreset))
      && (!FallsBack(t, isMobile) && t == Shader ==> b == ShaderLayer(preset))
      && (t == Gradient ==> b == GradientLayer(preset))
      && (t == Particle ==> b == ParticleLayer(preset, 30))
      && (t == Solid ==> b == SolidLayer(if isDark then "#0a0a0a" else "#ffffff"))
  {
  }

  /** On a mobile device no shader is ever drawn, not even as the overlay. */
  lemma NoShaderOnMobile(t: WallpaperType, preset: string, isDark: bool, particleEffect: string)
    ensures forall l :: l in Layers(t, preset, isDark, particleEffect, true) ==> !l.ShaderLayer?
  {
  }

  /** One layer, plus the overlay when an effect is chosen; the default
      effect draws none. */
  lemma LayerCount(t: WallpaperType, preset: string, isDark: bool, particleEffect: string, isMobile: bool)
    ensures |Layers(t, preset, isDark, particleEffect, isMobile)| == if particleEffect == NoEffect then 1 else 2
  {
  }
}
